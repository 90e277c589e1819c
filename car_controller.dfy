/** backend/.../controllers/CarController.java, with `CarService` folded
    in: the car endpoints over the car table. The date is a parameter. */
module CarApi {
  import opened Common
  import opened Domain
  import opened Store

  datatype Date = Date(year: int, month: int, day: int)

  /** The columns of a car besides its id. */
  datatype CarFields = CarFields(
    licensePlate: string,
    modelId: int,
    status: Status,
    color: string,
    expeditionYear: int,
    mileage: int,
    sellingPrice: int,
    createdOn: Option<Date>,
    description: Option<string>)

  /** The car as `saveCar` stores it: the creation date is today, whatever
      the request said; every other column is the request's. */
  function Stamped(fields: CarFields, today: Date): (stored: CarFields)
    ensures stored.createdOn == Some(today)
    ensures stored.(createdOn := fields.createdOn) == fields
  {
    fields.(createdOn := Some(today))
  }

  /** Stamping twice, as the controller and then the service do on the
      same day, is stamping once. */
  lemma StampTwiceIsOnce(fields: CarFields, today: Date)
    ensures Stamped(Stamped(fields, today), today) == Stamped(fields, today)
  {
  }

  class CarController {
    const cars: Table<CarFields>

    constructor(cars: Table<CarFields>)
      ensures this.cars == cars
    {
      this.cars := cars;
    }

    /** `getCars`: every stored car. */
    function GetCars(): (all: map<int, CarFields>)
      reads cars
      ensures all == cars.rows
    {
      cars.rows
    }

    /** `getCarById`: 404 when no car has the id, otherwise 200 with it. */
    function GetCarById(id: int): (r: Response<Entity<CarFields>>)
      reads cars
      ensures r == Lookup(cars.rows, id)
    {
      match cars.FindById(id)
      case None => Response(HttpNotFound, None)
      case Some(car) => Response(HttpOk, Some(car))
    }

    /** `saveCar`: store the body, stamped with today, as a new car; 201
        with the saved car. */
    method SaveCar(body: Entity<CarFields>, today: Date) returns (r: Response<Entity<CarFields>>)
      requires cars.Valid()
      modifies cars
      ensures cars.Valid()
      ensures r == Response(HttpCreated, Some(Entity(Some(old(cars.nextId)), Stamped(body.fields, today))))
      ensures old(cars.nextId) !in old(cars.rows)
      ensures cars.rows == old(cars.rows)[old(cars.nextId) := Stamped(body.fields, today)]
    {
      var car := body.fields.(createdOn := Some(today));
      // `CarService.createCar` stamps it once more, with the same date
      car := car.(createdOn := Some(today));
      var saved := cars.Insert(car);
      r := Response(HttpCreated, Some(saved));
    }

    /** `updateCar`: 404 and no change for a missing id; otherwise the body,
        creation date included, is saved under the path id, and 200. */
    method UpdateCar(id: int, body: Entity<CarFields>) returns (r: Response<Entity<CarFields>>)
      requires cars.Valid()
      modifies cars
      ensures cars.Valid() && cars.nextId == old(cars.nextId)
      ensures id !in old(cars.rows) ==> r == Response(HttpNotFound, None) && cars.rows == old(cars.rows)
      ensures id in old(cars.rows) ==>
        r == Response(HttpOk, Some(Entity(Some(id), body.fields))) && cars.rows == old(cars.rows)[id := body.fields]
    {
      if cars.FindById(id).None? {
        return Response(HttpNotFound, None);
      }
      var saved := cars.Overwrite(id, body.fields);
      r := Response(HttpOk, Some(saved));
    }

    /** `deleteCar`: 404 and no change for a missing id; otherwise the car
        is removed and 200, not 204. */
    method DeleteCar(id: int) returns (r: Response<()>)
      requires cars.Valid()
      modifies cars
      ensures cars.Valid() && cars.nextId == old(cars.nextId)
      ensures id !in old(cars.rows) ==> r == Response(HttpNotFound, None) && cars.rows == old(cars.rows)
      ensures id in old(cars.rows) ==> r == Response(HttpOk, None) && cars.rows == old(cars.rows) - {id}
    {
      if cars.FindById(id).None? {
        return Response(HttpNotFound, None);
      }
      cars.DeleteById(id);
      r := Response(HttpOk, None);
    }
  }
}
