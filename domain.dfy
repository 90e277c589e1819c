/** The frontend's data shapes (frontend/src/modules/cars/domain/Car.ts) and
    the photo-selection value the uploader hands to the create form. */
module Domain {
  import opened Common

  datatype Brand = Brand(id: int, name: string)

  /** `brand` is optional because the card guards against API data that lacks it. */
  datatype Model = Model(id: int, name: string, brand: Option<Brand>)

  /** The four-value `status` union of Car.ts. */
  datatype Status = Available | Sold | Reserved | Maintenance {
    /** The wire spelling, as the backend enum and the TypeScript union write it. */
    function Name(): string {
      match this
      case Available => "AVAILABLE"
      case Sold => "SOLD"
      case Reserved => "RESERVED"
      case Maintenance => "MAINTENANCE"
    }
  }

  datatype CarPhoto = CarPhoto(id: string, url: string, isMain: bool)

  /** A car as the frontend holds it. `model` may be missing in data the API
      returns (the card checks for it); `sellingPrice` is `None` when the JSON
      value is not a number. */
  datatype Car = Car(
    id: Option<string>,
    model: Option<Model>,
    licensePlate: string,
    color: string,
    expeditionYear: int,
    mileage: int,
    sellingPrice: Option<int>,
    status: Status,
    description: Option<string>,
    createdOn: Option<string>,
    photos: Option<seq<CarPhoto>>)

  /** The form fields both create forms spread into the car (`...formData`). */
  datatype CarDetails = CarDetails(
    licensePlate: string,
    color: string,
    expeditionYear: int,
    mileage: int,
    sellingPrice: int,
    status: Status,
    description: Option<string>)

  /** A file picked in the browser: its name and its MIME type (`file.type`). */
  datatype File = File(name: string, mimeType: string)

  /** What the uploader reports to its parent: the files and the main index. */
  datatype PhotoSelection = PhotoSelection(files: seq<File>, mainIndex: int)

  /** The value of a `<select>` of brands or models: the empty option or the
      id of one of the listed entries. */
  datatype Selection = Unselected | Chosen(id: int) {
    /** JavaScript `Number(selected)`: `Number('')` is 0. */
    function ToNumber(): int {
      match this
      case Unselected => 0
      case Chosen(id) => id
    }
  }

  /** `list.find(x => x.id === id)?.name || ''`, for brands and models alike:
      `idOf` and `nameOf` read an entry's id and name. The first entry with
      the id gives its name; with none the name is ''. */
  function NameById<T>(items: seq<T>, idOf: T -> int, nameOf: T -> string, id: int): (name: string)
    ensures name != "" ==> exists i :: 0 <= i < |items| && idOf(items[i]) == id && nameOf(items[i]) == name
    ensures (forall i :: 0 <= i < |items| ==> idOf(items[i]) != id) ==> name == ""
    ensures forall i :: 0 <= i < |items| && idOf(items[i]) == id && (forall j :: 0 <= j < i ==> idOf(items[j]) != id) ==> name == nameOf(items[i])
  {
    if items == [] then ""
    else if idOf(items[0]) == id then nameOf(items[0])
    else NameById(items[1..], idOf, nameOf, id)
  }

  function BrandId(b: Brand): int { b.id }
  function BrandName(b: Brand): string { b.name }
  function ModelId(m: Model): int { m.id }
  function ModelName(m: Model): string { m.name }
}
