/** frontend/src/shared/components/CarPhotoUploader.tsx: the list of chosen
    photo files and the index of the main one. The component state
    (`selectedFiles`, `mainPhotoIndex`) is a class; every handler reports the
    new selection to the parent, which the methods return. Previews, drag
    and drop and `FileReader` are left out. */
module CarPhotoUploader {
  import opened Common
  import opened Domain

  /** `file.type.startsWith('image/')` */
  predicate IsImage(f: File) {
    StartsWith(f.mimeType, "image/")
  }

  /** `files.filter(file => file.type.startsWith('image/'))` */
  function ImagesOnly(files: seq<File>): (r: seq<File>)
    ensures |r| <= |files|
    ensures forall i :: 0 <= i < |r| ==> IsImage(r[i])
  {
    if files == [] then []
    else (if IsImage(files[0]) then [files[0]] else []) + ImagesOnly(files[1..])
  }

  /** A picked file is kept exactly when it is an image. */
  lemma {:induction false} ImagesOnlyMembers(files: seq<File>)
    ensures forall f :: f in ImagesOnly(files) <==> f in files && IsImage(f)
  {
    if files != [] {
      ImagesOnlyMembers(files[1..]);
      assert files == [files[0]] + files[1..];
    }
  }

  /** Keeping only images of a list of images changes nothing. */
  lemma {:induction false} ImagesOnlyKeepsImages(files: seq<File>)
    requires forall i :: 0 <= i < |files| ==> IsImage(files[i])
    ensures ImagesOnly(files) == files
  {
    if files != [] {
      ImagesOnlyKeepsImages(files[1..]);
    }
  }

  /** `prev.filter((_, i) => i !== index)`: drop the entry at position `index`. */
  function RemoveAt(files: seq<File>, index: int): seq<File> {
    if files == [] then []
    else (if index == 0 then [] else [files[0]]) + RemoveAt(files[1..], index - 1)
  }

  /** An index outside the list removes nothing. */
  lemma {:induction false} RemoveAtOutside(files: seq<File>, index: int)
    requires !(0 <= index < |files|)
    ensures RemoveAt(files, index) == files
  {
    if files != [] {
      RemoveAtOutside(files[1..], index - 1);
      assert files == [files[0]] + files[1..];
    }
  }

  /** An index inside the list removes that entry and keeps the rest in order. */
  lemma {:induction false} RemoveAtInside(files: seq<File>, index: int)
    requires 0 <= index < |files|
    ensures RemoveAt(files, index) == files[..index] + files[index + 1..]
  {
    var tail := files[1..];
    if index == 0 {
      assert RemoveAt(files, index) == [] + RemoveAt(tail, -1);
      RemoveAtOutside(tail, -1);
      assert files[..index] + files[index + 1..] == tail;
    } else {
      assert RemoveAt(files, index) == [files[0]] + RemoveAt(tail, index - 1);
      RemoveAtInside(tail, index - 1);
      assert files[..index] == [files[0]] + tail[..index - 1];
      assert files[index + 1..] == tail[index..];
    }
  }

  /** Removing deletes exactly the entry at `index` and keeps the order of the
      others; an index outside the list removes nothing. */
  lemma RemoveAtSplices(files: seq<File>, index: int)
    ensures 0 <= index < |files| ==> RemoveAt(files, index) == files[..index] + files[index + 1..]
    ensures !(0 <= index < |files|) ==> RemoveAt(files, index) == files
  {
    if 0 <= index < |files| {
      RemoveAtInside(files, index);
    } else {
      RemoveAtOutside(files, index);
    }
  }

  /** The new main index after removing `index`: 0 if the main photo was
      removed, one less if it came after the removed one, otherwise unchanged. */
  function MainAfterRemoval(main: int, index: int): int {
    if main == index then 0 else if main > index then main - 1 else main
  }

  /** Removing a photo that is not the main one keeps the same file as main. */
  lemma RemovalKeepsMainFile(files: seq<File>, main: int, index: int)
    requires 0 <= index < |files| && 0 <= main < |files| && main != index
    ensures var rest := RemoveAt(files, index);
      0 <= MainAfterRemoval(main, index) < |rest| && rest[MainAfterRemoval(main, index)] == files[main]
  {
    RemoveAtSplices(files, index);
  }

  /** The main index points into the list, and is 0 when the list is empty. */
  predicate MainInRange(files: seq<File>, main: int) {
    if files == [] then main == 0 else 0 <= main < |files|
  }

  /** Adding files keeps the main index in range. */
  lemma AddKeepsMainInRange(files: seq<File>, main: int, picked: seq<File>)
    requires MainInRange(files, main)
    ensures MainInRange(files + ImagesOnly(picked), main)
  {
  }

  /** Removing an existing entry keeps the main index in range. */
  lemma RemoveKeepsMainInRange(files: seq<File>, main: int, index: int)
    requires MainInRange(files, main) && 0 <= index < |files|
    ensures MainInRange(RemoveAt(files, index), MainAfterRemoval(main, index))
  {
    RemoveAtSplices(files, index);
  }

  class Uploader {
    /** `selectedFiles` */
    var files: seq<File>
    /** `mainPhotoIndex` */
    var mainIndex: int

    /** Nothing chosen yet, and the first photo will be the main one. */
    constructor()
      ensures files == [] && mainIndex == 0
    {
      files := [];
      mainIndex := 0;
    }

    /** `handleFileSelect`: append the images among `picked`, in order, and
        report the new list with the unchanged main index. When no picked
        file is an image nothing changes and the parent is not told. */
    method HandleFileSelect(picked: seq<File>) returns (notified: Option<PhotoSelection>)
      modifies this
      ensures mainIndex == old(mainIndex)
      ensures ImagesOnly(picked) == [] ==> files == old(files) && notified == None
      ensures ImagesOnly(picked) != [] ==>
        files == old(files) + ImagesOnly(picked) && notified == Some(PhotoSelection(files, mainIndex))
    {
      var valid := ImagesOnly(picked);
      if valid == [] {
        return None;
      }
      files := files + valid;
      notified := Some(PhotoSelection(files, mainIndex));
    }

    /** `removePhoto`: drop the entry at `index` and move the main index. */
    method RemovePhoto(index: int) returns (notified: PhotoSelection)
      modifies this
      ensures files == RemoveAt(old(files), index)
      ensures mainIndex == MainAfterRemoval(old(mainIndex), index)
      ensures notified == PhotoSelection(files, mainIndex)
    {
      files := RemoveAt(files, index);
      if mainIndex == index {
        mainIndex := 0;
      } else if mainIndex > index {
        mainIndex := mainIndex - 1;
      }
      notified := PhotoSelection(files, mainIndex);
    }

    /** `setMainPhoto`: any index is taken as it is; the list is untouched. */
    method SetMainPhoto(index: int) returns (notified: PhotoSelection)
      modifies this
      ensures files == old(files) && mainIndex == index
      ensures notified == PhotoSelection(files, index)
    {
      mainIndex := index;
      notified := PhotoSelection(files, index);
    }
  }
}
