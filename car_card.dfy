/** frontend/src/modules/cars/ui/CarCard.tsx: what the card shows for one car.
    The markup is left out; the card is modelled as the value it renders. */
module CarCard {
  import opened Common
  import opened Domain
  import CarUtils

  /** `API_BASE_URL` of frontend/src/config/api.ts. */
  const ApiBaseUrl: string := "http://localhost:8080"

  /** The index `photos.find(photo => photo.isMain)` stops at. */
  function FirstMainIndex(photos: seq<CarPhoto>): (i: Option<nat>)
    ensures i.Some? ==>
      i.value < |photos| && photos[i.value].isMain && forall j :: 0 <= j < i.value ==> !photos[j].isMain
    ensures i.None? ==> forall j :: 0 <= j < |photos| ==> !photos[j].isMain
  {
    if photos == [] then None
    else if photos[0].isMain then Some(0)
    else match FirstMainIndex(photos[1..])
      case None => None
      case Some(k) => Some(k + 1)
  }

  /** `car.photos?.find(photo => photo.isMain)`. */
  function MainPhoto(photos: Option<seq<CarPhoto>>): Option<CarPhoto> {
    match photos
    case None => None
    case Some(ps) =>
      match FirstMainIndex(ps)
      case None => None
      case Some(i) => Some(ps[i])
  }

  /** There is a main photo exactly when photos are present and one is flagged,
      and then it is the first flagged one. */
  lemma MainPhotoIsFirstFlagged(photos: Option<seq<CarPhoto>>)
    ensures MainPhoto(photos).Some? <==>
      photos.Some? && exists i :: 0 <= i < |photos.value| && photos.value[i].isMain
    ensures MainPhoto(photos).Some? ==> MainPhoto(photos).value.isMain
    ensures MainPhoto(photos).Some? ==>
      exists i :: 0 <= i < |photos.value| && photos.value[i] == MainPhoto(photos).value
        && forall j :: 0 <= j < i ==> !photos.value[j].isMain
  {
    if photos.Some? {
      var r := FirstMainIndex(photos.value);
      if r.Some? {
        assert photos.value[r.value] == MainPhoto(photos).value;
      }
    }
  }

  /** When exactly one photo is flagged, as the backend keeps it, the card
      shows that photo whatever its position. */
  lemma UniqueMainIsShown(photos: seq<CarPhoto>, k: nat)
    requires k < |photos| && photos[k].isMain
    requires forall j :: 0 <= j < |photos| && j != k ==> !photos[j].isMain
    ensures MainPhoto(Some(photos)) == Some(photos[k])
  {
    var r := FirstMainIndex(photos);
    assert r.Some?;
  }

  /** The `src` of the main image. */
  function ImageSrc(url: string): string {
    if StartsWith(url, "http") then url else ApiBaseUrl + url
  }

  /** An absolute URL is kept, a relative one goes to the API server, and
      the result is always absolute, so resolving twice changes nothing. */
  lemma ImageSrcResolves(url: string)
    ensures StartsWith(url, "http") ==> ImageSrc(url) == url
    ensures !StartsWith(url, "http") ==> ImageSrc(url) == ApiBaseUrl + url
    ensures StartsWith(ImageSrc(url), "http")
    ensures ImageSrc(ImageSrc(url)) == ImageSrc(url)
  {
    if !StartsWith(url, "http") {
      assert (ApiBaseUrl + url)[..4] == ApiBaseUrl[..4];
    }
  }

  /** The price line: a formatted amount, or 'Precio no disponible' when the
      value is not a number. The currency formatting itself is left out. */
  datatype PriceText = Formatted(amount: int) | Unavailable {
    function Text(): string
      requires Unavailable?
    {
      "Precio no disponible"
    }
  }

  /** What the card renders. */
  datatype CardView =
    | InvalidData
    | Details(
        imageSrc: Option<string>,
        brandName: string,
        modelName: string,
        year: int,
        badgeText: string,
        badgeClass: string,
        price: PriceText,
        detailsPath: string)

  /** `${car.id}` in the details link: `undefined` when the car has no id. */
  function IdText(id: Option<string>): string {
    match id
    case None => "undefined"
    case Some(s) => s
  }

  /** The card for `car`; `None` stands for a missing car. */
  function Render(car: Option<Car>): (v: CardView)
    ensures v.InvalidData? <==>
      car.None? || car.value.model.None? || car.value.model.value.brand.None?
  {
    if car.None? || car.value.model.None? || car.value.model.value.brand.None? then InvalidData
    else
      var c := car.value;
      var m := c.model.value;
      Details(
        match MainPhoto(c.photos) case None => None case Some(p) => Some(ImageSrc(p.url)),
        m.brand.value.name,
        m.name,
        c.expeditionYear,
        CarUtils.TranslateStatus(c.status.Name()),
        CarUtils.StatusColor(c.status.Name()),
        match c.sellingPrice case None => Unavailable case Some(n) => Formatted(n),
        "/cars/" + IdText(c.id))
  }

  /** A car with model and brand shows their names, its year, its status
      badge, its price (or 'Precio no disponible') and links to its page. */
  lemma RenderDetails(c: Car)
    requires c.model.Some? && c.model.value.brand.Some?
    ensures var v := Render(Some(c));
      && v.Details?
      && v.brandName == c.model.value.brand.value.name
      && v.modelName == c.model.value.name
      && v.year == c.expeditionYear
      && (v.price.Unavailable? <==> c.sellingPrice.None?)
      && (v.price.Formatted? ==> v.price.amount == c.sellingPrice.value)
      && StartsWith(v.detailsPath, "/cars/")
      && (c.id.Some? ==> v.detailsPath[6..] == c.id.value)
  {
  }

  /** The image is shown exactly when there is a main photo, its source is
      that photo's resolved URL, and it is always an absolute URL. */
  lemma RenderImage(c: Car)
    requires c.model.Some? && c.model.value.brand.Some?
    ensures var v := Render(Some(c));
      && (v.imageSrc.Some? <==> MainPhoto(c.photos).Some?)
      && (v.imageSrc.Some? ==> v.imageSrc.value == ImageSrc(MainPhoto(c.photos).value.url)
                               && StartsWith(v.imageSrc.value, "http"))
  {
    var v := Render(Some(c));
    if v.imageSrc.Some? {
      ImageSrcResolves(MainPhoto(c.photos).value.url);
    }
  }

  /** The four statuses a car can have always get their Spanish label and
      one of the four badge colours, never the grey fallback. */
  lemma BadgeIsKnown(c: Car)
    requires c.model.Some? && c.model.value.brand.Some?
    ensures var v := Render(Some(c));
      && v.badgeText in {"Disponible", "Vendido", "Reservado", "En Mantenimiento"}
      && v.badgeClass != CarUtils.FallbackColor
      && v.badgeText == CarUtils.TranslateStatus(c.status.Name())
  {
  }
}
