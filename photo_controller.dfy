/** backend/.../controllers/CarPhotoController.java: the photo endpoints.
    Each checks that the car exists, then maps the service's outcome to a
    status code. */
module CarPhotoApi {
  import opened Common
  import opened Store
  import CarApi
  import opened CarPhotoService

  /** The `isMain` request parameter, `false` when it is omitted. */
  function MainFlag(isMain: Option<bool>): (main: bool)
    ensures main <==> isMain == Some(true)
  {
    match isMain
    case None => false
    case Some(b) => b
  }

  class CarPhotoController {
    const cars: Table<CarApi.CarFields>
    const service: PhotoService

    constructor(cars: Table<CarApi.CarFields>, service: PhotoService)
      ensures this.cars == cars && this.service == service
    {
      this.cars := cars;
      this.service := service;
    }

    /** `getCarPhotos`: 404 for an unknown car, otherwise 200 with exactly
        the photos of that car. */
    function GetCarPhotos(carId: int): (r: Response<map<int, PhotoFields>>)
      reads cars, service, service.photos
      ensures r.Response? && (r.code == HttpOk <==> carId in cars.rows)
      ensures carId !in cars.rows ==> r == Response(HttpNotFound, None)
      ensures carId in cars.rows ==>
        && r.body.Some?
        && (forall k :: k in r.body.value <==> k in service.photos.rows && service.photos.rows[k].carId == carId)
        && (forall k :: k in r.body.value ==> r.body.value[k] == service.photos.rows[k])
    {
      if carId !in cars.rows then Response(HttpNotFound, None)
      else Response(HttpOk, Some(service.GetPhotosByCar(carId)))
    }

    /** `getMainPhoto`: 404 for an unknown car and for a car with no photo
        flagged main, otherwise 200 with that photo. */
    function GetMainPhoto(carId: int): (r: Response<Entity<PhotoFields>>)
      requires service.Valid()
      reads cars, service, service.photos
      ensures r.Response?
      ensures r.code == HttpOk <==>
        carId in cars.rows && exists k :: k in service.photos.rows && service.photos.rows[k].carId == carId
                                                                  && service.photos.rows[k].isMain
      ensures r.code != HttpOk ==> r == Response(HttpNotFound, None)
      ensures r.code == HttpOk ==> r.body == MainPhotoOf(service.photos.rows, carId)
    {
      if carId !in cars.rows then Response(HttpNotFound, None)
      else match service.GetMainPhoto(carId)
        case None => Response(HttpNotFound, None)
        case Some(photo) => Response(HttpOk, Some(photo))
    }

    /** `uploadPhoto`: 404 and nothing saved for an unknown car; 500 and
        nothing saved when the file cannot be written; otherwise 200 with
        the photo `savePhoto` stored, main only when the request says so. */
    method UploadPhoto(carId: int, originalName: string, caption: Option<string>, isMain: Option<bool>,
                       uuid: string, storageOk: bool) returns (r: Response<Entity<PhotoFields>>)
      requires service.Valid()
      modifies service.photos
      ensures service.Valid()
      ensures carId !in cars.rows ==>
        r == Response(HttpNotFound, None) && service.photos.rows == old(service.photos.rows)
      ensures carId in cars.rows && !storageOk ==>
        r == Response(HttpServerError, None) && service.photos.rows == old(service.photos.rows)
      ensures carId in cars.rows && storageOk ==>
        var p := PhotoFields(PhotoUrl(uuid, originalName), carId, caption, MainFlag(isMain));
        && r == Response(HttpOk, Some(Entity(Some(old(service.photos.nextId)), p)))
        && service.photos.rows ==
             (if MainFlag(isMain) then ClearMain(old(service.photos.rows), carId) else old(service.photos.rows))
             [old(service.photos.nextId) := p]
    {
      if carId !in cars.rows {
        return Response(HttpNotFound, None);
      }
      var outcome := service.SavePhoto(originalName, carId, caption, MainFlag(isMain), uuid, storageOk);
      match outcome {
        case Done(photo) => r := Response(HttpOk, Some(photo));
        case IoFailure => r := Response(HttpServerError, None);
        case Missing(message) => r := Thrown(message);
      }
    }

    /** `deletePhoto`: 200 once the photo is gone; 500 when the file cannot be
        deleted; an unknown photo's 'Foto no encontrada' is not caught and
        leaves the controller as an exception, not as a 404. */
    method DeletePhoto(photoId: int, storageOk: bool) returns (r: Response<()>)
      requires service.Valid()
      modifies service.photos
      ensures service.Valid()
      ensures photoId !in old(service.photos.rows) ==>
        r == Thrown(NotFoundMessage) && service.photos.rows == old(service.photos.rows)
      ensures photoId in old(service.photos.rows) && !storageOk ==>
        r == Response(HttpServerError, None) && service.photos.rows == old(service.photos.rows)
      ensures photoId in old(service.photos.rows) && storageOk ==>
        r == Response(HttpOk, None) && service.photos.rows == old(service.photos.rows) - {photoId}
    {
      var outcome := service.DeletePhoto(photoId, storageOk);
      match outcome {
        case Done(_) => r := Response(HttpOk, None);
        case IoFailure => r := Response(HttpServerError, None);
        case Missing(message) => r := Thrown(message);
      }
    }
  }
}
