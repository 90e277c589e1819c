/** frontend/src/app/cars/page.tsx: the cars page state (`showForm`, `cars`,
    `error`, `loading`), the car list load, and `handleCreateCar`, which
    creates the car and then uploads its photos one after another. */
module CarsPage {
  import opened Common
  import opened Domain
  import opened Remote

  const LoadError: string := "Error al cargar los coches"
  const CreateError: string := "Error al crear el coche"

  /** The requests a flow sends, whether it got to the end, and the replies
      left for later calls. */
  datatype Flow = Flow(requests: seq<Request>, succeeded: bool, rest: seq<Reply>)

  /** The uploads from position `i` on: one awaited request per file, with
      `isMain` true exactly for `i == mainIndex`; a rejected upload ends the
      loop, while any response (whatever its status) lets it go on. */
  function UploadFlow(carId: int, files: seq<File>, mainIndex: int, i: nat, replies: seq<Reply>): Flow
    decreases |files| - i
  {
    if i >= |files| then Flow([], true, replies)
    else
      var req := UploadPhoto(carId, files[i], i == mainIndex);
      if NextReply(replies).Fail? then Flow([req], false, Remaining(replies))
      else
        var tail := UploadFlow(carId, files, mainIndex, i + 1, Remaining(replies));
        Flow([req] + tail.requests, tail.succeeded, tail.rest)
  }

  /** `handleCreateCar`: create the car, then upload the photos to its id. */
  function CreateCarFlow(car: Car, photos: PhotoSelection, replies: seq<Reply>): Flow {
    match NextReply(replies)
    case Fail => Flow([CreateCar(car)], false, Remaining(replies))
    case Ok(id) =>
      var up := UploadFlow(id, photos.files, photos.mainIndex, 0, Remaining(replies));
      Flow([CreateCar(car)] + up.requests, up.succeeded, up.rest)
  }

  /** The uploads are, in index order, one per file from `i` on, all to
      `carId`; they stop early only after a rejected upload. */
  lemma {:induction false} UploadsInOrder(carId: int, files: seq<File>, mainIndex: int, i: nat, replies: seq<Reply>)
    requires i <= |files|
    ensures var f := UploadFlow(carId, files, mainIndex, i, replies);
      && |f.requests| <= |files| - i
      && (f.succeeded ==> |f.requests| == |files| - i)
      && (!f.succeeded ==> |f.requests| >= 1)
      && forall k :: 0 <= k < |f.requests| ==>
           f.requests[k] == UploadPhoto(carId, files[i + k], i + k == mainIndex)
    decreases |files| - i
  {
    if i < |files| && NextReply(replies).Ok? {
      UploadsInOrder(carId, files, mainIndex, i + 1, Remaining(replies));
      var tail := UploadFlow(carId, files, mainIndex, i + 1, Remaining(replies));
      var f := UploadFlow(carId, files, mainIndex, i, replies);
      forall k | 0 < k < |f.requests|
        ensures f.requests[k] == UploadPhoto(carId, files[i + k], i + k == mainIndex)
      {
        assert f.requests[k] == tail.requests[k - 1];
      }
    }
  }

  /** The number of uploads flagged as main. */
  function MainUploads(requests: seq<Request>): nat {
    if requests == [] then 0
    else (if requests[0].UploadPhoto? && requests[0].isMain then 1 else 0) + MainUploads(requests[1..])
  }

  lemma {:induction false} MainUploadsAppend(a: seq<Request>, b: seq<Request>)
    ensures MainUploads(a + b) == MainUploads(a) + MainUploads(b)
  {
    if a == [] {
      assert a + b == b;
    } else {
      assert (a + b)[0] == a[0] && (a + b)[1..] == a[1..] + b;
      MainUploadsAppend(a[1..], b);
    }
  }

  /** At most one upload is main; exactly one when every upload went through
      and the main index names one of the files from `i` on; none when it
      names no such file, for instance the form's initial -1. */
  lemma {:induction false} UploadFlowMainCount(carId: int, files: seq<File>, mainIndex: int, i: nat, replies: seq<Reply>)
    ensures var f := UploadFlow(carId, files, mainIndex, i, replies);
      && MainUploads(f.requests) <= 1
      && (f.succeeded && i <= mainIndex < |files| ==> MainUploads(f.requests) == 1)
      && (!(i <= mainIndex < |files|) ==> MainUploads(f.requests) == 0)
    decreases |files| - i
  {
    if i < |files| {
      var req := UploadPhoto(carId, files[i], i == mainIndex);
      if NextReply(replies).Fail? {
        assert [req][1..] == [];
      } else {
        UploadFlowMainCount(carId, files, mainIndex, i + 1, Remaining(replies));
        var tail := UploadFlow(carId, files, mainIndex, i + 1, Remaining(replies));
        MainUploadsAppend([req], tail.requests);
        assert [req][1..] == [];
      }
    }
  }

  /** The car is created before any upload, and every upload goes to the id
      the server returned, one per file in index order. */
  lemma CreateBeforeUploads(car: Car, photos: PhotoSelection, replies: seq<Reply>)
    ensures var f := CreateCarFlow(car, photos, replies);
      && f.requests[0] == CreateCar(car)
      && |f.requests| <= |photos.files| + 1
      && (NextReply(replies).Fail? ==> f.requests == [CreateCar(car)] && !f.succeeded)
      && (NextReply(replies).Ok? ==>
            forall k :: 1 <= k < |f.requests| ==>
              f.requests[k] == UploadPhoto(NextReply(replies).id, photos.files[k - 1], k - 1 == photos.mainIndex))
  {
    if NextReply(replies).Ok? {
      UploadsInOrder(NextReply(replies).id, photos.files, photos.mainIndex, 0, Remaining(replies));
    }
  }

  /** Without photos only the car is created. */
  lemma NoPhotosNoUploads(car: Car, replies: seq<Reply>, mainIndex: int)
    ensures CreateCarFlow(car, PhotoSelection([], mainIndex), replies).requests == [CreateCar(car)]
  {
  }

  /** At most one upload of a created car is main; exactly one if all went
      through and the main index is in range; none for main index -1. */
  lemma CreateCarMainCount(car: Car, photos: PhotoSelection, replies: seq<Reply>)
    ensures var f := CreateCarFlow(car, photos, replies);
      && MainUploads(f.requests) <= 1
      && (f.succeeded && 0 <= photos.mainIndex < |photos.files| ==> MainUploads(f.requests) == 1)
      && (photos.mainIndex == -1 ==> MainUploads(f.requests) == 0)
  {
    var f := CreateCarFlow(car, photos, replies);
    match NextReply(replies)
    case Fail =>
      assert [CreateCar(car)][1..] == [];
    case Ok(id) =>
      var up := UploadFlow(id, photos.files, photos.mainIndex, 0, Remaining(replies));
      UploadFlowMainCount(id, photos.files, photos.mainIndex, 0, Remaining(replies));
      MainUploadsAppend([CreateCar(car)], up.requests);
      assert [CreateCar(car)][1..] == [];
  }

  /** One turn of the upload loop: the request sent at position `i`, appended
      to what was sent before, accounts for the flow from `i` on. */
  lemma UploadStep(carId: int, files: seq<File>, mainIndex: int, i: nat, replies: seq<Reply>, sent: seq<Request>)
    requires i < |files|
    ensures var now := UploadFlow(carId, files, mainIndex, i, replies);
      var req := UploadPhoto(carId, files[i], i == mainIndex);
      var next := UploadFlow(carId, files, mainIndex, i + 1, Remaining(replies));
      && (NextReply(replies).Fail? ==>
            sent + [req] == sent + now.requests && Remaining(replies) == now.rest && !now.succeeded)
      && (NextReply(replies).Ok? ==>
            (sent + [req]) + next.requests == sent + now.requests
            && next.succeeded == now.succeeded && next.rest == now.rest)
  {
    var req := UploadPhoto(carId, files[i], i == mainIndex);
    var next := UploadFlow(carId, files, mainIndex, i + 1, Remaining(replies));
    assert (sent + [req]) + next.requests == sent + ([req] + next.requests);
  }

  /** The upload loop of `handleCreateCar`: each photo is sent and awaited in
      turn, flagged main exactly at the main index; the first rejected upload
      ends the loop. The requests and the outcome are those of `UploadFlow`. */
  method UploadPhotos(api: Api, carId: int, photos: PhotoSelection) returns (ok: bool)
    modifies api
    ensures var up := UploadFlow(carId, photos.files, photos.mainIndex, 0, old(api.pending));
      && api.log == old(api.log) + up.requests
      && api.pending == up.rest
      && ok == up.succeeded
  {
    ghost var start := api.log;
    ghost var up := UploadFlow(carId, photos.files, photos.mainIndex, 0, api.pending);
    var i := 0;
    while i < |photos.files|
      invariant 0 <= i <= |photos.files|
      invariant var now := UploadFlow(carId, photos.files, photos.mainIndex, i, api.pending);
        && api.log + now.requests == start + up.requests
        && now.succeeded == up.succeeded && now.rest == up.rest
      decreases |photos.files| - i
    {
      UploadStep(carId, photos.files, photos.mainIndex, i, api.pending, api.log);
      var uploaded := api.Send(UploadPhoto(carId, photos.files[i], i == photos.mainIndex));
      if uploaded.Fail? {
        return false;
      }
      i := i + 1;
    }
    assert api.log + [] == api.log;
    ok := true;
  }

  class Page {
    var showForm: bool
    var cars: seq<Car>
    var error: Option<string>
    var loading: bool

    /** The page starts with the form closed, no cars, no error, loading. */
    constructor()
      ensures !showForm && cars == [] && error == None && loading
    {
      showForm := false;
      cars := [];
      error := None;
      loading := true;
    }

    /** The "add car" button. */
    method OpenForm()
      modifies this
      ensures showForm && cars == old(cars) && error == old(error) && loading == old(loading)
    {
      showForm := true;
    }

    /** The start of `loadCars`: loading, and any earlier error cleared. */
    method BeginLoadCars()
      modifies this
      ensures loading && error == None && cars == old(cars) && showForm == old(showForm)
    {
      loading := true;
      error := None;
    }

    /** The end of `loadCars`, given the outcome of the request (`None` when
      it failed): the cars, or 'Error al cargar los coches'; loading ends
      either way. */
    method FinishLoadCars(result: Option<seq<Car>>)
      modifies this
      ensures !loading && showForm == old(showForm)
      ensures result.Some? ==> cars == result.value && error == old(error)
      ensures result.None? ==> cars == old(cars) && error == Some(LoadError)
    {
      if result.Some? {
        cars := result.value;
      } else {
        error := Some(LoadError);
      }
      loading := false;
    }

    /** `handleCreateCar`: the requests are those of `CreateCarFlow`. On
        success the form closes and the list starts reloading; on failure the
        error is 'Error al crear el coche' and the form stays as it was. */
    method HandleCreateCar(api: Api, car: Car, photos: PhotoSelection)
      modifies this, api
      ensures var f := CreateCarFlow(car, photos, old(api.pending));
        && api.log == old(api.log) + f.requests
        && api.pending == f.rest
        && cars == old(cars)
        && (f.succeeded ==> !showForm && loading && error == None)
        && (!f.succeeded ==> showForm == old(showForm) && loading == old(loading) && error == Some(CreateError))
    {
      ghost var flow := CreateCarFlow(car, photos, api.pending);
      ghost var before := api.log;
      var created := api.Send(CreateCar(car));
      if created.Fail? {
        error := Some(CreateError);
        return;
      }
      ghost var up := UploadFlow(created.id, photos.files, photos.mainIndex, 0, api.pending);
      assert flow == Flow([CreateCar(car)] + up.requests, up.succeeded, up.rest);
      var uploaded := UploadPhotos(api, created.id, photos);
      assert api.log == before + flow.requests;
      if !uploaded {
        error := Some(CreateError);
        return;
      }
      showForm := false;
      BeginLoadCars();
    }
  }
}
