/**
 * The admin gallery screen (src/components/admin/GalleryManager.tsx): the
 * album photos merged with the saved metadata, the visibility toggle with its
 * optimistic update, the metadata editor, and the filtered, capped grid.
 * The component state is an object; the store is the `GalleryStore` the
 * server actions work on.
 */
module GalleryManager {
  import opened Wrappers
  import opened Text
  import opened Seqs
  import opened GalleryDb

  /** A photo of the album as the raw listing gives it; the merge reads only `id` and `url`. */
  datatype RawPhoto = RawPhoto(id: string, url: string)

  /** A photo of the admin grid, after the merge. */
  datatype AdminPhoto = AdminPhoto(
    id: string, url: string, category: string, description: string, isHidden: bool, isSaved: bool)

  /** The editor's form. */
  datatype EditForm = EditForm(category: string, description: string, isHidden: bool)

  const AllCategories: string := "all"
  const DefaultCategory: string := "Uncategorized"
  const PageSize: nat := 48

  // ---------------------------------------------------------------------
  // The merge (GalleryManager.tsx:41-66)
  // ---------------------------------------------------------------------

  /** `new Map(savedMetadata.map(p => [p.id, p]))`: a later entry replaces an earlier one with the same id. */
  function IndexById(saved: seq<PhotoRow>): (m: map<string, PhotoRow>)
    ensures forall id :: id in m <==> exists i :: 0 <= i < |saved| && saved[i].id == id
    decreases |saved|
  {
    if saved == [] then map[]
    else
      var last := saved[|saved| - 1];
      var m := IndexById(saved[..|saved| - 1]);
      assert forall i :: 0 <= i < |saved| - 1 ==> saved[..|saved| - 1][i] == saved[i];
      m[last.id := last]
  }

  /** The map holds, for each id, the last listed row with that id. */
  lemma {:induction false} IndexByIdLaterWins(saved: seq<PhotoRow>, i: nat)
    requires i < |saved| && forall j :: i < j < |saved| ==> saved[j].id != saved[i].id
    ensures saved[i].id in IndexById(saved) && IndexById(saved)[saved[i].id] == saved[i]
    decreases |saved|
  {
    if i < |saved| - 1 {
      var init := saved[..|saved| - 1];
      assert init[i] == saved[i];
      IndexByIdLaterWins(init, i);
    }
  }

  /** A listing of every row of a keyed table, ids distinct, indexes back to the table. */
  lemma IndexOfListing(saved: seq<PhotoRow>, rows: map<string, PhotoRow>)
    requires Keyed(rows) && |saved| == |rows|
    requires forall p :: p in saved <==> p.id in rows && rows[p.id] == p
    requires forall i, j :: 0 <= i < j < |saved| ==> saved[i].id != saved[j].id
    ensures IndexById(saved) == rows
  {
    var m := IndexById(saved);
    forall id | id in rows ensures id in m && m[id] == rows[id] {
      assert rows[id] in saved;
      var i :| 0 <= i < |saved| && saved[i] == rows[id];
      IndexByIdLaterWins(saved, i);
    }
    forall id | id in m ensures id in rows {
      var i :| 0 <= i < |saved| && saved[i].id == id;
      assert saved[i] in saved;
    }
  }

  /** One photo of the merge: the saved metadata, or hidden and uncategorised when there is none. */
  function Merged(photo: RawPhoto, meta: map<string, PhotoRow>): AdminPhoto {
    if photo.id in meta then
      var saved := meta[photo.id];
      AdminPhoto(photo.id, photo.url, saved.category, saved.description.GetOr(""), saved.isHidden, true)
    else
      AdminPhoto(photo.id, photo.url, DefaultCategory, "", true, false)
  }

  /** `rawPhotos.map(...)` with the metadata map. */
  function Merge(raw: seq<RawPhoto>, meta: map<string, PhotoRow>): (r: seq<AdminPhoto>)
    ensures |r| == |raw|
  {
    seq(|raw|, i requires 0 <= i < |raw| => Merged(raw[i], meta))
  }

  /**
   * The merge keeps the raw list's length, order, ids and URLs; a photo with
   * metadata takes its category, visibility and description ("" when null) and
   * is marked saved; any other photo is `Uncategorized`, hidden and unsaved.
   */
  lemma MergeShape(raw: seq<RawPhoto>, meta: map<string, PhotoRow>, i: nat)
    requires i < |raw|
    ensures var p := Merge(raw, meta)[i];
      p.id == raw[i].id && p.url == raw[i].url &&
      (raw[i].id in meta ==>
         p.category == meta[raw[i].id].category && p.isHidden == meta[raw[i].id].isHidden && p.isSaved &&
         (meta[raw[i].id].description.Some? ==> p.description == meta[raw[i].id].description.value) &&
         (meta[raw[i].id].description.None? ==> p.description == "")) &&
      (raw[i].id !in meta ==> p.category == DefaultCategory && p.description == "" && p.isHidden && !p.isSaved)
  {
  }

  // ---------------------------------------------------------------------
  // Local updates of the list
  // ---------------------------------------------------------------------

  /** `prev.map(p => p.id === id ? { ...p, isHidden } : p)`. */
  function SetHidden(ps: seq<AdminPhoto>, id: string, isHidden: bool): (r: seq<AdminPhoto>)
    ensures |r| == |ps|
  {
    seq(|ps|, i requires 0 <= i < |ps| => if ps[i].id == id then ps[i].(isHidden := isHidden) else ps[i])
  }

  /** The list update of a successful edit-save (GalleryManager.tsx:105-111). */
  function ApplyEdit(ps: seq<AdminPhoto>, id: string, form: EditForm): (r: seq<AdminPhoto>)
    ensures |r| == |ps|
  {
    seq(|ps|, i requires 0 <= i < |ps| =>
      if ps[i].id == id
      then ps[i].(category := form.category, description := form.description, isHidden := form.isHidden, isSaved := true)
      else ps[i])
  }

  /** Reverting the optimistic update restores the list when the photos of that id showed `isHidden`. */
  lemma RevertRestores(ps: seq<AdminPhoto>, id: string, isHidden: bool)
    requires forall p :: p in ps && p.id == id ==> p.isHidden == isHidden
    ensures SetHidden(SetHidden(ps, id, !isHidden), id, isHidden) == ps
  {
    var back := SetHidden(SetHidden(ps, id, !isHidden), id, isHidden);
    forall i | 0 <= i < |ps| ensures back[i] == ps[i] {
      assert ps[i] in ps;
    }
  }

  /** After a successful toggle the local list is what reloading from the store would show. */
  lemma ToggleMatchesReload(raw: seq<RawPhoto>, rows: map<string, PhotoRow>, id: string, isHidden: bool)
    requires id in rows
    ensures SetHidden(Merge(raw, rows), id, isHidden) == Merge(raw, Toggled(rows, id, isHidden))
  {
    var a := SetHidden(Merge(raw, rows), id, isHidden);
    var b := Merge(raw, Toggled(rows, id, isHidden));
    forall i | 0 <= i < |raw| ensures a[i] == b[i] {
    }
  }

  /** After a successful edit-save the local list is what reloading from the store would show. */
  lemma EditMatchesReload(raw: seq<RawPhoto>, rows: map<string, PhotoRow>, id: string, form: EditForm)
    ensures ApplyEdit(Merge(raw, rows), id, form) ==
      Merge(raw, Upserted(rows, id, form.category, Some(form.description), form.isHidden))
  {
    var a := ApplyEdit(Merge(raw, rows), id, form);
    var b := Merge(raw, Upserted(rows, id, form.category, Some(form.description), form.isHidden));
    forall i | 0 <= i < |raw| ensures a[i] == b[i] {
    }
  }

  // ---------------------------------------------------------------------
  // Filter and display cap
  // ---------------------------------------------------------------------

  /** The filter predicate of GalleryManager.tsx:122-126 (lower-casing is ASCII here). */
  predicate Matches(p: AdminPhoto, activeCategory: string, searchQuery: string) {
    (activeCategory == AllCategories || p.category == activeCategory) &&
    (searchQuery == "" || Contains(ToLower(p.description), ToLower(searchQuery)))
  }

  /** `filteredPhotos`. */
  function FilteredPhotos(ps: seq<AdminPhoto>, activeCategory: string, searchQuery: string): seq<AdminPhoto> {
    Filter(ps, p => Matches(p, activeCategory, searchQuery))
  }

  /** The filter keeps exactly the matching photos, each as often as in the input, in their order. */
  lemma FilteredPhotosSpec(ps: seq<AdminPhoto>, activeCategory: string, searchQuery: string)
    ensures var r := FilteredPhotos(ps, activeCategory, searchQuery);
      IsSubsequence(r, ps) && forall p :: p in r <==> p in ps && Matches(p, activeCategory, searchQuery)
    ensures var r := FilteredPhotos(ps, activeCategory, searchQuery);
      forall p :: Count(r, p) == (if Matches(p, activeCategory, searchQuery) then Count(ps, p) else 0)
  {
  }

  /** With category "all" and no search, nothing is filtered out. */
  lemma NoFilterKeepsAll(ps: seq<AdminPhoto>)
    ensures FilteredPhotos(ps, AllCategories, "") == ps
  {
    FilterAll(ps, p => Matches(p, AllCategories, ""));
  }

  /** `filteredPhotos.slice(0, 48)`. */
  function Displayed(filtered: seq<AdminPhoto>): seq<AdminPhoto> { Take(filtered, PageSize) }

  /** The "load more" notice (GalleryManager.tsx:285). */
  predicate ShowsLoadMore(loading: bool, filtered: seq<AdminPhoto>) { !loading && |filtered| > PageSize }

  /** At most 48 photos show; the notice appears (after loading) exactly when some filtered photo is not shown. */
  lemma DisplayCap(filtered: seq<AdminPhoto>)
    ensures |Displayed(filtered)| <= PageSize && Displayed(filtered) == filtered[..|Displayed(filtered)|]
    ensures ShowsLoadMore(false, filtered) <==> Displayed(filtered) != filtered
  {
  }

  // ---------------------------------------------------------------------
  // The component state and its handlers
  // ---------------------------------------------------------------------

  class ManagerState {
    var photos: seq<AdminPhoto>
    var loading: bool
    var savingId: Option<string>
    var editingPhoto: Option<AdminPhoto>
    var editForm: EditForm

    /** The initial state of the component. */
    constructor ()
      ensures photos == [] && loading && savingId.None? && editingPhoto.None?
      ensures editForm == EditForm(DefaultCategory, "", false)
    {
      photos := [];
      loading := true;
      savingId := None;
      editingPhoto := None;
      editForm := EditForm(DefaultCategory, "", false);
    }

    /**
     * `loadPhotos()`: `raw` is the raw listing, `None` when fetching it throws
     * (the list is then kept). Reading the metadata never throws: on a store
     * error it is [] and every photo shows as unsaved.
     */
    method LoadPhotos(raw: Option<seq<RawPhoto>>, store: GalleryStore, storeFault: bool)
      requires store.Valid()
      modifies this
      ensures !loading && savingId == old(savingId) && editingPhoto == old(editingPhoto) && editForm == old(editForm)
      ensures raw.None? ==> photos == old(photos)
      ensures raw.Some? && !storeFault ==> photos == Merge(raw.value, store.rows)
      ensures raw.Some? && storeFault ==> photos == Merge(raw.value, map[])
    {
      loading := true;
      if raw.Some? {
        var saved := store.GetSavedPhotos(storeFault);
        if !storeFault {
          IndexOfListing(saved, store.rows);
        }
        photos := Merge(raw.value, IndexById(saved));
      }
      loading := false;
    }

    /**
     * `handleToggleVisibility(id, currentIsHidden)`: flip the photo at once,
     * ask the store, and set it back when the store refuses.
     */
    method ToggleVisibility(id: string, currentIsHidden: bool, store: GalleryStore, fault: bool)
      requires store.Valid()
      modifies this, store
      ensures store.Valid()
      ensures savingId.None? && loading == old(loading) && editingPhoto == old(editingPhoto) && editForm == old(editForm)
      ensures !fault && id in old(store.rows) ==>
        photos == SetHidden(old(photos), id, !currentIsHidden) && store.rows == Toggled(old(store.rows), id, !currentIsHidden)
      ensures fault || id !in old(store.rows) ==>
        photos == SetHidden(SetHidden(old(photos), id, !currentIsHidden), id, currentIsHidden) && store.rows == old(store.rows)
    {
      savingId := Some(id);
      photos := SetHidden(photos, id, !currentIsHidden);
      var result := store.TogglePhotoVisibility(id, !currentIsHidden, fault);
      if !result.Success? {
        photos := SetHidden(photos, id, currentIsHidden);
      }
      savingId := None;
    }

    /** The edit button (GalleryManager.tsx:222-228): open the editor on a photo, filling the form. */
    method OpenEditor(photo: AdminPhoto)
      modifies this
      ensures editingPhoto == Some(photo) && photos == old(photos) && savingId == old(savingId) && loading == old(loading)
      ensures editForm == EditForm(if photo.category == "" then DefaultCategory else photo.category, photo.description, photo.isHidden)
    {
      editingPhoto := Some(photo);
      editForm := EditForm(if photo.category == "" then DefaultCategory else photo.category, photo.description, photo.isHidden);
    }

    /**
     * `handleSaveEdit()`: save the form for the photo being edited; on success
     * update the list and close the editor, on failure keep both.
     */
    method SaveEdit(store: GalleryStore, fault: bool)
      requires store.Valid()
      modifies this, store
      ensures store.Valid()
      ensures savingId == (if old(editingPhoto).None? then old(savingId) else None)
      ensures loading == old(loading) && editForm == old(editForm)
      ensures old(editingPhoto).None? || fault ==>
        photos == old(photos) && editingPhoto == old(editingPhoto) && store.rows == old(store.rows)
      ensures old(editingPhoto).Some? && !fault ==>
        var id := old(editingPhoto).value.id;
        photos == ApplyEdit(old(photos), id, editForm) && editingPhoto.None? &&
        store.rows == Upserted(old(store.rows), id, editForm.category, Some(editForm.description), editForm.isHidden)
    {
      if editingPhoto.None? {
        return;
      }
      var id := editingPhoto.value.id;
      savingId := Some(id);
      var result := store.SavePhotoMetadata(id, editForm.category, Some(editForm.description), editForm.isHidden, fault);
      if result.Success? {
        photos := ApplyEdit(photos, id, editForm);
        editingPhoto := None;
      }
      savingId := None;
    }
  }
}
