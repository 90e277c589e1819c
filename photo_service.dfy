/** backend/.../services/CarPhotoService.java: the photo table, the URL a
    stored photo gets, and the rule that a car has at most one main photo.
    Writing and deleting the file itself, and the random UUID, are
    parameters: whether the file system succeeded, and the UUID text. */
module CarPhotoService {
  import opened Common
  import opened Store

  /** The columns of a photo besides its id. */
  datatype PhotoFields = PhotoFields(url: string, carId: int, caption: Option<string>, isMain: bool)

  /** The result of a service call: done, an `IOException`, or the
      `RuntimeException` of a missing photo. */
  datatype Outcome<T> = Done(value: T) | IoFailure | Missing(message: string)

  const NotFoundMessage: string := "Foto no encontrada"
  const UploadPrefix: string := "/uploads/cars/"

  /** The name the file is stored under. */
  function StoredName(uuid: string, originalName: string): string {
    uuid + "_" + originalName
  }

  /** The URL recorded for a saved photo. */
  function PhotoUrl(uuid: string, originalName: string): string {
    UploadPrefix + StoredName(uuid, originalName)
  }

  predicate NoSlash(s: string) {
    forall j :: 0 <= j < |s| ==> s[j] != '/'
  }

  /** `lastIndexOf("/")`: the position of the last '/', or -1. */
  function LastSlash(s: string): (i: int)
    ensures -1 <= i < |s|
    ensures i >= 0 ==> s[i] == '/'
    ensures forall j :: i < j < |s| ==> s[j] != '/'
    ensures i == -1 ==> NoSlash(s)
  {
    if s == [] then -1
    else if s[|s| - 1] == '/' then |s| - 1
    else LastSlash(s[..|s| - 1])
  }

  /** A '/' with none after it is the last one. */
  lemma LastSlashAt(s: string, i: int)
    requires 0 <= i < |s| && s[i] == '/'
    requires forall j :: i < j < |s| ==> s[j] != '/'
    ensures LastSlash(s) == i
  {
  }

  /** The file name `deletePhoto` recovers from a URL: what follows the
      last '/'. */
  function FileNameOf(url: string): (name: string)
    ensures NoSlash(name)
    ensures |name| <= |url| && name == url[|url| - |name|..]
    ensures name == url || url[|url| - |name| - 1] == '/'
  {
    url[LastSlash(url) + 1..]
  }

  /** For a URL built by `savePhoto` from a UUID and a name without '/',
      the recovered name is the stored one. */
  lemma FileNameOfStoredUrl(uuid: string, originalName: string)
    requires NoSlash(uuid) && NoSlash(originalName)
    ensures FileNameOf(PhotoUrl(uuid, originalName)) == StoredName(uuid, originalName)
  {
    var stored := StoredName(uuid, originalName);
    var url := PhotoUrl(uuid, originalName);
    assert NoSlash(stored) by {
      forall j | 0 <= j < |stored|
        ensures stored[j] != '/'
      {
        if j < |uuid| {
          assert stored[j] == uuid[j];
        } else if j > |uuid| {
          assert stored[j] == originalName[j - |uuid| - 1];
        }
      }
    }
    assert forall j :: |UploadPrefix| <= j < |url| ==> url[j] == stored[j - |UploadPrefix|];
    LastSlashAt(url, |UploadPrefix| - 1);
    assert url[|UploadPrefix|..] == stored;
  }

  /** Text before a name that holds a '/' does not change what follows
      its last '/'. */
  lemma FileNameIgnoresHead(head: string, name: string)
    requires !NoSlash(name)
    ensures FileNameOf(head + name) == FileNameOf(name)
  {
    var url := head + name;
    var k := LastSlash(name);
    assert forall j :: 0 <= j < |name| ==> url[|head| + j] == name[j];
    LastSlashAt(url, |head| + k);
    assert url[|head| + k + 1..] == name[k + 1..];
  }

  /** An original name holding a '/' loses everything up to its last '/',
      the UUID with it. */
  lemma FileNameOfSlashedName(uuid: string, originalName: string)
    requires !NoSlash(originalName)
    ensures FileNameOf(PhotoUrl(uuid, originalName)) == FileNameOf(originalName)
  {
    assert PhotoUrl(uuid, originalName) == (UploadPrefix + uuid + "_") + originalName;
    FileNameIgnoresHead(UploadPrefix + uuid + "_", originalName);
  }

  /** No car has two photos flagged main. */
  predicate AtMostOneMain(rows: map<int, PhotoFields>) {
    forall a, b :: a in rows && b in rows && rows[a].isMain && rows[b].isMain && rows[a].carId == rows[b].carId ==> a == b
  }

  /** `findByCar`: the stored photos of one car, by id. */
  function PhotosOfCar(rows: map<int, PhotoFields>, carId: int): map<int, PhotoFields> {
    RowsWhere(rows, (p: PhotoFields) => p.carId == carId)
  }

  /** `findByCarAndIsMainTrue`: the car's main photo, if it has one. The
      query expects at most one, which `AtMostOneMain` guarantees. */
  function MainPhotoOf(rows: map<int, PhotoFields>, carId: int): (r: Option<Entity<PhotoFields>>)
    requires AtMostOneMain(rows)
    ensures r.None? <==> forall k :: k in rows && rows[k].carId == carId ==> !rows[k].isMain
    ensures r.Some? ==>
      && r.value.id.Some? && r.value.id.value in rows
      && r.value.fields == rows[r.value.id.value]
      && r.value.fields.carId == carId && r.value.fields.isMain
  {
    if exists k :: k in rows && rows[k].carId == carId && rows[k].isMain then
      var k :| k in rows && rows[k].carId == carId && rows[k].isMain;
      Some(Entity(Some(k), rows[k]))
    else None
  }

  /** Every stored photo of `carId` with its main flag cleared; the others
      as they are. */
  function ClearMain(rows: map<int, PhotoFields>, carId: int): map<int, PhotoFields> {
    map k | k in rows :: if rows[k].carId == carId then rows[k].(isMain := false) else rows[k]
  }

  /** The loop's state: the photos of `carId` with an id below `upTo`
      have been cleared. */
  function ClearedBelow(rows: map<int, PhotoFields>, carId: int, upTo: int): map<int, PhotoFields> {
    map k | k in rows :: if rows[k].carId == carId && k < upTo then rows[k].(isMain := false) else rows[k]
  }

  /** Moving past id `i`: it is cleared when it is a photo of the car. */
  lemma ClearOneMore(rows: map<int, PhotoFields>, carId: int, i: int)
    ensures i in rows && rows[i].carId == carId ==>
      ClearedBelow(rows, carId, i)[i := rows[i].(isMain := false)] == ClearedBelow(rows, carId, i + 1)
    ensures !(i in rows && rows[i].carId == carId) ==>
      ClearedBelow(rows, carId, i) == ClearedBelow(rows, carId, i + 1)
  {
    var b := ClearedBelow(rows, carId, i + 1);
    if i in rows && rows[i].carId == carId {
      var a := ClearedBelow(rows, carId, i)[i := rows[i].(isMain := false)];
      assert a.Keys == b.Keys;
      forall j | j in a
        ensures a[j] == b[j]
      {
      }
    } else {
      var a := ClearedBelow(rows, carId, i);
      assert a.Keys == b.Keys;
      forall j | j in a
        ensures a[j] == b[j]
      {
      }
    }
  }

  /** After saving a main photo `p` under the fresh id `id`, it is the one
      main photo of its car; only main flags of that car changed; photos of
      other cars are untouched; and no car has two main photos. */
  lemma SaveMainLeavesOneMain(rows: map<int, PhotoFields>, id: int, p: PhotoFields)
    requires AtMostOneMain(rows) && id !in rows && p.isMain
    ensures var after := ClearMain(rows, p.carId)[id := p];
      && after.Keys == rows.Keys + {id}
      && AtMostOneMain(after)
      && (forall k :: k in after && after[k].carId == p.carId && after[k].isMain ==> k == id)
      && (forall k :: k in rows ==> after[k].(isMain := rows[k].isMain) == rows[k])
      && (forall k :: k in rows && rows[k].carId != p.carId ==> after[k] == rows[k])
      && MainPhotoOf(after, p.carId) == Some(Entity(Some(id), p))
  {
    var after := ClearMain(rows, p.carId)[id := p];
    forall a, b | a in after && b in after && after[a].isMain && after[b].isMain && after[a].carId == after[b].carId
      ensures a == b
    {
      if a != id && b != id {
        assert rows[a].isMain && rows[b].isMain && rows[a].carId == rows[b].carId;
      }
    }
  }

  /** Saving a photo that is not main changes no stored flag and keeps at
      most one main photo per car. */
  lemma SaveOtherKeepsFlags(rows: map<int, PhotoFields>, id: int, p: PhotoFields)
    requires AtMostOneMain(rows) && id !in rows && !p.isMain
    ensures AtMostOneMain(rows[id := p])
    ensures forall k :: k in rows ==> rows[id := p][k] == rows[k]
    ensures forall c :: MainPhotoOf(rows[id := p], c) == MainPhotoOf(rows, c)
  {
    var after := rows[id := p];
    assert AtMostOneMain(after);
    forall c
      ensures MainPhotoOf(after, c) == MainPhotoOf(rows, c)
    {
      assert forall k :: (k in after && after[k].carId == c && after[k].isMain)
                    <==> (k in rows && rows[k].carId == c && rows[k].isMain);
      var before := MainPhotoOf(rows, c);
      var now := MainPhotoOf(after, c);
      if now.Some? {
        var k := now.value.id.value;
        assert k != id && k in rows && rows[k].carId == c && rows[k].isMain;
        assert before.Some?;
        assert now.value.id == before.value.id;
      }
    }
  }

  /** Deleting a photo keeps at most one main photo per car and promotes no
      other photo to main. */
  lemma DeleteKeepsFlags(rows: map<int, PhotoFields>, id: int)
    requires AtMostOneMain(rows)
    ensures AtMostOneMain(rows - {id})
    ensures forall k :: k in rows - {id} ==> (rows - {id})[k] == rows[k]
    ensures forall c :: MainPhotoOf(rows - {id}, c).Some? ==> MainPhotoOf(rows, c) == MainPhotoOf(rows - {id}, c)
  {
    forall c | MainPhotoOf(rows - {id}, c).Some?
      ensures MainPhotoOf(rows, c) == MainPhotoOf(rows - {id}, c)
    {
      var now := MainPhotoOf(rows - {id}, c);
      var before := MainPhotoOf(rows, c);
      assert before.Some?;
      assert now.value.id == before.value.id;
    }
  }

  class PhotoService {
    const photos: Table<PhotoFields>

    predicate Valid()
      reads this, photos
    {
      photos.Valid() && AtMostOneMain(photos.rows)
    }

    constructor(photos: Table<PhotoFields>)
      requires photos.Valid() && AtMostOneMain(photos.rows)
      ensures this.photos == photos && Valid()
    {
      this.photos := photos;
    }

    /** `getPhotosByCar`. */
    function GetPhotosByCar(carId: int): (r: map<int, PhotoFields>)
      reads this, photos
      ensures forall k :: k in r <==> k in photos.rows && photos.rows[k].carId == carId
      ensures forall k :: k in r ==> r[k] == photos.rows[k]
    {
      PhotosOfCar(photos.rows, carId)
    }

    /** `getMainPhoto`. */
    function GetMainPhoto(carId: int): (r: Option<Entity<PhotoFields>>)
      requires Valid()
      reads this, photos
      ensures r == MainPhotoOf(photos.rows, carId)
    {
      MainPhotoOf(photos.rows, carId)
    }

    /** `savePhoto`: when the file cannot be written nothing is stored.
        Otherwise, for a main photo every stored photo of the car is first
        saved with its main flag cleared; then the new photo is inserted
        with the URL '/uploads/cars/' + uuid + '_' + name. */
    method SavePhoto(originalName: string, carId: int, caption: Option<string>, isMain: bool,
                     uuid: string, storageOk: bool) returns (result: Outcome<Entity<PhotoFields>>)
      requires Valid()
      modifies photos
      ensures Valid()
      ensures !storageOk ==> result == IoFailure && photos.rows == old(photos.rows) && photos.nextId == old(photos.nextId)
      ensures storageOk ==>
        var p := PhotoFields(PhotoUrl(uuid, originalName), carId, caption, isMain);
        && result == Done(Entity(Some(old(photos.nextId)), p))
        && photos.rows == (if isMain then ClearMain(old(photos.rows), carId) else old(photos.rows))[old(photos.nextId) := p]
    {
      if !storageOk {
        return IoFailure;
      }
      var p := PhotoFields(PhotoUrl(uuid, originalName), carId, caption, isMain);
      if isMain {
        ClearMainPhotos(carId);
        assert photos.nextId !in photos.rows;
        SaveMainLeavesOneMain(old(photos.rows), photos.nextId, p);
      } else {
        SaveOtherKeepsFlags(photos.rows, photos.nextId, p);
      }
      var saved := photos.Insert(p);
      result := Done(saved);
    }

    /** The loop of `savePhoto`: save each stored photo of the car, in id
        order, with its main flag cleared. */
    method ClearMainPhotos(carId: int)
      requires Valid()
      modifies photos
      ensures photos.Valid() && photos.nextId == old(photos.nextId)
      ensures photos.rows == ClearMain(old(photos.rows), carId)
    {
      ghost var start := photos.rows;
      assert ClearedBelow(start, carId, 1) == start;
      var id := 1;
      while id < photos.nextId
        invariant photos.Valid() && photos.nextId == old(photos.nextId)
        invariant 1 <= id <= photos.nextId
        invariant photos.rows == ClearedBelow(start, carId, id)
        decreases photos.nextId - id
      {
        ClearOneMore(start, carId, id);
        if id in photos.rows && photos.rows[id].carId == carId {
          var _ := photos.Overwrite(id, photos.rows[id].(isMain := false));
        }
        id := id + 1;
      }
      assert ClearedBelow(start, carId, id) == ClearMain(start, carId);
    }

    /** `deletePhoto`: an unknown id throws 'Foto no encontrada'; a file
        that cannot be deleted leaves the row; otherwise the row goes and
        the file name deleted is the one after the URL's last '/'. */
    method DeletePhoto(id: int, storageOk: bool) returns (result: Outcome<string>)
      requires Valid()
      modifies photos
      ensures Valid() && photos.nextId == old(photos.nextId)
      ensures id !in old(photos.rows) ==> result == Missing(NotFoundMessage) && photos.rows == old(photos.rows)
      ensures id in old(photos.rows) && !storageOk ==> result == IoFailure && photos.rows == old(photos.rows)
      ensures id in old(photos.rows) && storageOk ==>
        result == Done(FileNameOf(old(photos.rows)[id].url)) && photos.rows == old(photos.rows) - {id}
    {
      var found := photos.FindById(id);
      if found.None? {
        return Missing(NotFoundMessage);
      }
      var fileName := FileNameOf(found.value.fields.url);
      if !storageOk {
        return IoFailure;
      }
      DeleteKeepsFlags(photos.rows, id);
      photos.DeleteById(id);
      result := Done(fileName);
    }
  }
}
