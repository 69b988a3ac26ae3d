/**
 * The curation store of src/actions/galleryDb.ts: the `galleryPhoto` table,
 * keyed by photo id, seen as a map held by an object whose methods update it.
 * A database error is an input flag (`fault`) of each operation.
 */
module GalleryDb {
  import opened Wrappers

  /** A row of `galleryPhoto`; the description column may be null. */
  datatype PhotoRow = PhotoRow(id: string, category: string, description: Option<string>, isHidden: bool)

  /** `{ success: true, photo }` or `{ success: false, error }`. */
  datatype DbResult = Success(photo: PhotoRow) | Failure(error: string)

  const SaveError: string := "Failed to save photo metadata"
  const ToggleError: string := "Failed to update photo visibility"

  /** Every row is stored under its own id. */
  predicate Keyed(rows: map<string, PhotoRow>) {
    forall id :: id in rows ==> rows[id].id == id
  }

  /**
   * `upsert({ where: { id }, update, create })`: the row for `id` gets the
   * category and visibility; an undefined description leaves the stored one
   * on update and is null on create.
   */
  function Upserted(rows: map<string, PhotoRow>, id: string, category: string, description: Option<string>, isHidden: bool): map<string, PhotoRow> {
    var kept := if description.Some? || id !in rows then description else rows[id].description;
    rows[id := PhotoRow(id, category, kept, isHidden)]
  }

  /** `update({ where: { id }, data: { isHidden } })` on an existing row. */
  function Toggled(rows: map<string, PhotoRow>, id: string, isHidden: bool): map<string, PhotoRow>
    requires id in rows
  {
    rows[id := rows[id].(isHidden := isHidden)]
  }

  /** After an upsert the row for `id` exists and holds exactly what was given. */
  lemma UpsertWrites(rows: map<string, PhotoRow>, id: string, category: string, description: Option<string>, isHidden: bool)
    ensures var r := Upserted(rows, id, category, description, isHidden);
      id in r && r[id].id == id && r[id].category == category && r[id].isHidden == isHidden &&
      (description.Some? ==> r[id].description == description) &&
      (description.None? && id in rows ==> r[id].description == rows[id].description) &&
      (description.None? && id !in rows ==> r[id].description.None?)
  {
  }

  /** An upsert touches no other id, and adds `id` to the keys and nothing else. */
  lemma UpsertOthersUnchanged(rows: map<string, PhotoRow>, id: string, category: string, description: Option<string>, isHidden: bool)
    ensures var r := Upserted(rows, id, category, description, isHidden);
      r.Keys == rows.Keys + {id} && forall k :: k in rows && k != id ==> r[k] == rows[k]
  {
  }

  /** Saving the same data twice leaves the store as saving it once. */
  lemma UpsertIdempotent(rows: map<string, PhotoRow>, id: string, category: string, description: Option<string>, isHidden: bool)
    ensures var once := Upserted(rows, id, category, description, isHidden);
      Upserted(once, id, category, description, isHidden) == once
  {
    var once := Upserted(rows, id, category, description, isHidden);
    var twice := Upserted(once, id, category, description, isHidden);
    assert twice[id] == once[id];
    assert twice.Keys == once.Keys;
  }

  lemma UpsertKeepsKeyed(rows: map<string, PhotoRow>, id: string, category: string, description: Option<string>, isHidden: bool)
    requires Keyed(rows)
    ensures Keyed(Upserted(rows, id, category, description, isHidden))
  {
  }

  /** A visibility update changes `isHidden` of that row only; category and description stay. */
  lemma ToggleOnlyVisibility(rows: map<string, PhotoRow>, id: string, isHidden: bool)
    requires id in rows
    ensures var r := Toggled(rows, id, isHidden);
      r.Keys == rows.Keys && r[id].isHidden == isHidden &&
      r[id].id == rows[id].id && r[id].category == rows[id].category && r[id].description == rows[id].description &&
      forall k :: k in rows && k != id ==> r[k] == rows[k]
  {
  }

  /** Setting the visibility back to what it was restores the store. */
  lemma ToggleBackRestores(rows: map<string, PhotoRow>, id: string, isHidden: bool)
    requires id in rows
    ensures Toggled(Toggled(rows, id, isHidden), id, rows[id].isHidden) == rows
  {
    var back := Toggled(Toggled(rows, id, isHidden), id, rows[id].isHidden);
    assert back[id] == rows[id];
    assert back.Keys == rows.Keys;
  }

  /** The `galleryPhoto` table. */
  class GalleryStore {
    var rows: map<string, PhotoRow>

    ghost predicate Valid()
      reads this
    {
      Keyed(rows)
    }

    constructor ()
      ensures Valid() && rows == map[]
    {
      rows := map[];
    }

    /** `getSavedPhotos()` (galleryDb.ts:5-12): every stored row, in no particular order, or [] on error. */
    method GetSavedPhotos(fault: bool) returns (photos: seq<PhotoRow>)
      requires Valid()
      ensures fault ==> photos == []
      ensures !fault ==> |photos| == |rows|
      ensures !fault ==> forall p :: p in photos <==> p.id in rows && rows[p.id] == p
      ensures forall i, j :: 0 <= i < j < |photos| ==> photos[i].id != photos[j].id
    {
      if fault {
        return [];
      }
      photos := [];
      var pending := rows.Keys;
      while pending != {}
        invariant pending <= rows.Keys
        invariant |photos| + |pending| == |rows.Keys|
        invariant forall p :: p in photos <==> p.id in rows.Keys - pending && rows[p.id] == p
        invariant forall i, j :: 0 <= i < j < |photos| ==> photos[i].id != photos[j].id
        decreases pending
      {
        var id :| id in pending;
        photos := photos + [rows[id]];
        pending := pending - {id};
      }
      assert |rows| == |rows.Keys|;
    }

    /** The Prisma upsert itself, as the seeding route calls it. */
    method Upsert(id: string, category: string, description: Option<string>, isHidden: bool) returns (photo: PhotoRow)
      requires Valid()
      modifies this
      ensures Valid()
      ensures rows == Upserted(old(rows), id, category, description, isHidden) && photo == rows[id]
    {
      UpsertKeepsKeyed(rows, id, category, description, isHidden);
      rows := Upserted(rows, id, category, description, isHidden);
      photo := rows[id];
    }

    /** `savePhotoMetadata(data)` (galleryDb.ts:14-41). */
    method SavePhotoMetadata(id: string, category: string, description: Option<string>, isHidden: bool, fault: bool)
      returns (result: DbResult)
      requires Valid()
      modifies this
      ensures Valid()
      ensures fault ==> rows == old(rows) && result == Failure(SaveError)
      ensures !fault ==> rows == Upserted(old(rows), id, category, description, isHidden) && result == Success(rows[id])
    {
      if fault {
        return Failure(SaveError);
      }
      var photo := Upsert(id, category, description, isHidden);
      result := Success(photo);
    }

    /** `togglePhotoVisibility(id, isHidden)` (galleryDb.ts:43-54): fails when no row has that id. */
    method TogglePhotoVisibility(id: string, isHidden: bool, fault: bool) returns (result: DbResult)
      requires Valid()
      modifies this
      ensures Valid()
      ensures fault || id !in old(rows) ==> rows == old(rows) && result == Failure(ToggleError)
      ensures !fault && id in old(rows) ==> rows == Toggled(old(rows), id, isHidden) && result == Success(rows[id])
    {
      if fault || id !in rows {
        return Failure(ToggleError);
      }
      rows := Toggled(rows, id, isHidden);
      result := Success(rows[id]);
    }
  }
}
