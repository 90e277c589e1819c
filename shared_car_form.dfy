/** frontend/src/shared/components/CarForm.tsx: the create form the cars page
    opens. Its state is a class; `handleSubmit` sends the brand and model
    requests, builds the car and hands it, with the chosen photos, to the
    page's `handleCreateCar`. Unlike the other create form it validates
    nothing before sending: its save button is a plain button outside the
    `<form>`, so the browser's `required`, `min` and `max` checks never run. */
module SharedCarForm {
  import opened Common
  import opened Domain
  import opened Remote
  import CarsPage

  /** The reply the request at position `k` of a run gets. */
  function ReplyAt(replies: seq<Reply>, k: nat): Reply {
    if k < |replies| then replies[k] else Fail
  }

  /** The replies left after `n` requests. */
  function Drop(replies: seq<Reply>, n: nat): seq<Reply> {
    if n >= |replies| then [] else replies[n..]
  }

  lemma RemainingShifts(replies: seq<Reply>)
    ensures NextReply(replies) == ReplyAt(replies, 0)
    ensures forall k: nat :: ReplyAt(Remaining(replies), k) == ReplyAt(replies, k + 1)
    ensures Remaining(replies) == Drop(replies, 1)
    ensures Remaining(Remaining(replies)) == Drop(replies, 2)
  {
  }

  /** One model creation for `brandId`; its reply is the model id. */
  function CreateModelStep(brandId: int, newModel: string, replies: seq<Reply>): Resolution {
    match NextReply(replies)
    case Fail => Resolution([CreateModel(newModel, brandId)], None, Remaining(replies))
    case Ok(modelId) => Resolution([CreateModel(newModel, brandId)], Some((brandId, modelId)), Remaining(replies))
  }

  /** The requests of `handleSubmit`. A new brand is created and then a
      model for it, whether "new model" is ticked or not; otherwise a new
      model is created for `Number(selectedBrand)`; otherwise nothing is
      sent and the selected ids are used. The first brand id of `ids` is the
      one the model request was linked to. */
  function Plan(isNewBrand: bool, newBrand: string, selectedBrand: Selection,
                isNewModel: bool, newModel: string, selectedModel: Selection,
                replies: seq<Reply>): Resolution
  {
    if isNewBrand then
      match NextReply(replies)
      case Fail => Resolution([CreateBrand(newBrand)], None, Remaining(replies))
      case Ok(brandId) =>
        var m := CreateModelStep(brandId, newModel, Remaining(replies));
        Resolution([CreateBrand(newBrand)] + m.requests, m.ids, m.rest)
    else if isNewModel then CreateModelStep(selectedBrand.ToNumber(), newModel, replies)
    else Resolution([], Some((selectedBrand.ToNumber(), selectedModel.ToNumber())), replies)
  }

  /** Which requests are sent, in which order, for each pair of flags. */
  lemma PlanRequests(isNewBrand: bool, newBrand: string, selectedBrand: Selection,
                     isNewModel: bool, newModel: string, selectedModel: Selection,
                     replies: seq<Reply>)
    ensures var r := Plan(isNewBrand, newBrand, selectedBrand, isNewModel, newModel, selectedModel, replies);
      && (isNewBrand && ReplyAt(replies, 0).Fail? ==> r.requests == [CreateBrand(newBrand)])
      && (isNewBrand && ReplyAt(replies, 0).Ok? ==>
            r.requests == [CreateBrand(newBrand), CreateModel(newModel, ReplyAt(replies, 0).id)])
      && (!isNewBrand && isNewModel ==> r.requests == [CreateModel(newModel, selectedBrand.ToNumber())])
      && (!isNewBrand && !isNewModel ==>
            r.requests == [] && r.rest == replies
            && r.ids == Some((selectedBrand.ToNumber(), selectedModel.ToNumber())))
  {
    RemainingShifts(replies);
  }

  /** Every request but the last got an id; the ids are missing exactly when
      the last request failed; the model id is the last reply when a request
      was sent; the brand id is the created one, or the selected one, and
      is the one the model request names; the replies left are those after
      the requests sent. */
  lemma PlanOutcome(isNewBrand: bool, newBrand: string, selectedBrand: Selection,
                    isNewModel: bool, newModel: string, selectedModel: Selection,
                    replies: seq<Reply>)
    ensures var r := Plan(isNewBrand, newBrand, selectedBrand, isNewModel, newModel, selectedModel, replies);
      var n := |r.requests|;
      && (forall k :: 0 <= k < n - 1 ==> ReplyAt(replies, k).Ok?)
      && (r.ids.None? <==> n > 0 && ReplyAt(replies, n - 1).Fail?)
      && (r.ids.Some? && n > 0 ==>
            r.ids.value.1 == ReplyAt(replies, n - 1).id
            && r.requests[n - 1] == CreateModel(newModel, r.ids.value.0))
      && (r.ids.Some? && isNewBrand ==> r.ids.value.0 == ReplyAt(replies, 0).id)
      && (r.ids.Some? && !isNewBrand ==> r.ids.value.0 == selectedBrand.ToNumber())
      && r.rest == Drop(replies, n)
  {
    RemainingShifts(replies);
    if isNewBrand && NextReply(replies).Ok? {
      RemainingShifts(Remaining(replies));
    }
  }

  /** Nothing checks the selects: with neither box ticked and no option
      chosen, no request is sent and the car is linked to model 0 of
      brand 0. */
  lemma UntouchedSelectsGiveZeroIds(newBrand: string, newModel: string, replies: seq<Reply>)
    ensures var r := Plan(false, newBrand, Unselected, false, newModel, Unselected, replies);
      r.requests == [] && r.ids == Some((0, 0))
  {
    PlanRequests(false, newBrand, Unselected, false, newModel, Unselected, replies);
  }

  /** The car handed to `onSubmit`: the form fields as typed, no id, the
      model and brand ids, and the names typed for a new model or brand, or
      otherwise those found by id in the fetched lists (or ''). */
  function CarData(details: CarDetails, brandId: int, modelId: int,
                   isNewBrand: bool, newBrand: string, brands: seq<Brand>,
                   isNewModel: bool, newModel: string, models: seq<Model>): Car
  {
    Car(
      None,
      Some(Model(
        modelId,
        if isNewModel then newModel else NameById(models, ModelId, ModelName, modelId),
        Some(Brand(brandId, if isNewBrand then newBrand else NameById(brands, BrandId, BrandName, brandId))))),
      details.licensePlate, details.color, details.expeditionYear, details.mileage,
      Some(details.sellingPrice), details.status, details.description, None, None)
  }

  /** The car keeps every typed field and links the given ids; a looked-up
      name is that of the first listed entry with the id, and '' when none
      has it. */
  lemma CarDataFields(details: CarDetails, brandId: int, modelId: int,
                      isNewBrand: bool, newBrand: string, brands: seq<Brand>,
                      isNewModel: bool, newModel: string, models: seq<Model>)
    ensures var c := CarData(details, brandId, modelId, isNewBrand, newBrand, brands, isNewModel, newModel, models);
      var m := c.model.value;
      var b := m.brand.value;
      && CarDetails(c.licensePlate, c.color, c.expeditionYear, c.mileage, c.sellingPrice.value,
                    c.status, c.description) == details
      && c.id.None? && c.photos.None?
      && m.id == modelId && b.id == brandId
      && (isNewModel ==> m.name == newModel)
      && (!isNewModel && m.name != "" ==>
            exists i :: 0 <= i < |models| && models[i].id == modelId && models[i].name == m.name)
      && (!isNewModel && (forall i :: 0 <= i < |models| ==> models[i].id != modelId) ==> m.name == "")
      && (!isNewModel ==> forall i :: 0 <= i < |models| && models[i].id == modelId && (forall j :: 0 <= j < i ==> models[j].id != modelId) ==> m.name == models[i].name)
      && (isNewBrand ==> b.name == newBrand)
      && (!isNewBrand && b.name != "" ==>
            exists i :: 0 <= i < |brands| && brands[i].id == brandId && brands[i].name == b.name)
      && (!isNewBrand && (forall i :: 0 <= i < |brands| ==> brands[i].id != brandId) ==> b.name == "")
      && (!isNewBrand ==> forall i :: 0 <= i < |brands| && brands[i].id == brandId && (forall j :: 0 <= j < i ==> brands[j].id != brandId) ==> b.name == brands[i].name)
  {
  }

  /** The car as the source builds it: both arms of the brand-id choice read
      `Number(selectedBrand)`, so the id returned for a created brand is
      never used. */
  function CarDataAsWritten(details: CarDetails, selectedBrand: Selection, modelId: int,
                            isNewBrand: bool, newBrand: string, brands: seq<Brand>,
                            isNewModel: bool, newModel: string, models: seq<Model>): Car
  {
    var brandId := if isNewBrand then selectedBrand.ToNumber() else selectedBrand.ToNumber();
    CarData(details, brandId, modelId, isNewBrand, newBrand, brands, isNewModel, newModel, models)
  }

  /** As written, a car for a new brand points at brand 0: ticking "new
      brand" empties the brand select (`Form.Valid`), so `Number('')` is
      used, while the model was created under the new brand's id `b`. The
      corrected `CarData`, given the plan's ids, carries `b`. */
  lemma NewBrandDroppedAsWritten(details: CarDetails, newBrand: string, brands: seq<Brand>,
                                 isNewModel: bool, newModel: string, selectedModel: Selection,
                                 models: seq<Model>, b: int, m: int, rest: seq<Reply>)
    requires b != 0
    ensures var r := Plan(true, newBrand, Unselected, isNewModel, newModel, selectedModel, [Ok(b), Ok(m)] + rest);
      && r.requests == [CreateBrand(newBrand), CreateModel(newModel, b)]
      && r.ids == Some((b, m))
      && CarDataAsWritten(details, Unselected, m, true, newBrand, brands, isNewModel, newModel, models)
           .model.value.brand.value.id == 0
      && CarData(details, r.ids.value.0, r.ids.value.1, true, newBrand, brands, isNewModel, newModel, models)
           .model.value.brand.value.id == b
  {
    assert Remaining([Ok(b), Ok(m)] + rest) == [Ok(m)] + rest;
  }

  /** With the plan's ids, the car points at the brand its model was
      created under (the created brand for a new brand), and at the created
      model whenever a model request was sent. */
  lemma SubmittedCarEmbedsCreatedBrand(details: CarDetails, isNewBrand: bool, newBrand: string,
                                       selectedBrand: Selection, brands: seq<Brand>,
                                       isNewModel: bool, newModel: string, selectedModel: Selection,
                                       models: seq<Model>, replies: seq<Reply>)
    ensures var r := Plan(isNewBrand, newBrand, selectedBrand, isNewModel, newModel, selectedModel, replies);
      r.ids.Some? ==>
        var c := CarData(details, r.ids.value.0, r.ids.value.1, isNewBrand, newBrand, brands,
                         isNewModel, newModel, models);
        var n := |r.requests|;
        && (n > 0 ==> r.requests[n - 1] == CreateModel(newModel, c.model.value.brand.value.id)
                      && c.model.value.id == ReplyAt(replies, n - 1).id)
        && (isNewBrand ==> c.model.value.brand.value.id == ReplyAt(replies, 0).id)
        && (!isNewBrand ==> c.model.value.brand.value.id == selectedBrand.ToNumber())
        && (!isNewBrand && !isNewModel ==> c.model.value.id == selectedModel.ToNumber())
  {
    PlanOutcome(isNewBrand, newBrand, selectedBrand, isNewModel, newModel, selectedModel, replies);
    PlanRequests(isNewBrand, newBrand, selectedBrand, isNewModel, newModel, selectedModel, replies);
  }

  /** One `handleInputChange` call: the field named and its new value. The
      number fields are given as numbers. */
  datatype DetailEdit =
    | LicensePlate(text: string)
    | Color(text: string)
    | ExpeditionYear(number: int)
    | Mileage(number: int)
    | SellingPrice(number: int)
    | StatusEdit(status: Status)
    | Description(text: string)

  class Form {
    var brands: seq<Brand>
    var models: seq<Model>
    var selectedBrand: Selection
    var newBrand: string
    var selectedModel: Selection
    var newModel: string
    var isNewBrand: bool
    var isNewModel: bool
    var loading: bool
    var photos: PhotoSelection
    var details: CarDetails

    /** A ticked "new brand" or "new model" box empties its select, which
        stays disabled while the box is ticked. */
    predicate Valid()
      reads this
    {
      && (isNewBrand ==> selectedBrand == Unselected)
      && (isNewModel ==> selectedModel == Unselected)
    }

    /** Empty fields and selects, the current year, 0 for mileage and price,
        AVAILABLE, no photos and main index -1, not loading. */
    constructor(currentYear: int)
      ensures Valid()
      ensures brands == [] && models == [] && !loading
      ensures selectedBrand == Unselected && selectedModel == Unselected
      ensures newBrand == "" && newModel == "" && !isNewBrand && !isNewModel
      ensures photos == PhotoSelection([], -1)
      ensures details == CarDetails("", "", currentYear, 0, 0, Available, Some(""))
    {
      brands := [];
      models := [];
      selectedBrand := Unselected;
      newBrand := "";
      selectedModel := Unselected;
      newModel := "";
      isNewBrand := false;
      isNewModel := false;
      loading := false;
      photos := PhotoSelection([], -1);
      details := CarDetails("", "", currentYear, 0, 0, Available, Some(""));
    }

    /** The brand list arrived. */
    method BrandsLoaded(list: seq<Brand>)
      requires Valid()
      modifies this
      ensures Valid() && brands == list
      ensures models == old(models) && selectedBrand == old(selectedBrand) && selectedModel == old(selectedModel)
      ensures newBrand == old(newBrand) && newModel == old(newModel)
      ensures isNewBrand == old(isNewBrand) && isNewModel == old(isNewModel)
      ensures loading == old(loading) && photos == old(photos) && details == old(details)
    {
      brands := list;
    }

    /** The model list of the selected brand arrived. */
    method ModelsLoaded(list: seq<Model>)
      requires Valid()
      modifies this
      ensures Valid() && models == list
      ensures brands == old(brands) && selectedBrand == old(selectedBrand) && selectedModel == old(selectedModel)
      ensures newBrand == old(newBrand) && newModel == old(newModel)
      ensures isNewBrand == old(isNewBrand) && isNewModel == old(isNewModel)
      ensures loading == old(loading) && photos == old(photos) && details == old(details)
    {
      models := list;
    }

    /** The brand select; it is disabled while "new brand" is ticked. */
    method SelectBrand(choice: Selection)
      requires Valid()
      modifies this
      ensures Valid()
      ensures selectedBrand == if old(isNewBrand) then old(selectedBrand) else choice
      ensures brands == old(brands) && models == old(models) && selectedModel == old(selectedModel)
      ensures newBrand == old(newBrand) && newModel == old(newModel)
      ensures isNewBrand == old(isNewBrand) && isNewModel == old(isNewModel)
      ensures loading == old(loading) && photos == old(photos) && details == old(details)
    {
      if !isNewBrand {
        selectedBrand := choice;
      }
    }

    /** The model select; it is disabled without a selected brand, or while
        either box is ticked. */
    method SelectModel(choice: Selection)
      requires Valid()
      modifies this
      ensures Valid()
      ensures selectedModel ==
        if old(selectedBrand).Unselected? || old(isNewBrand) || old(isNewModel) then old(selectedModel) else choice
      ensures brands == old(brands) && models == old(models) && selectedBrand == old(selectedBrand)
      ensures newBrand == old(newBrand) && newModel == old(newModel)
      ensures isNewBrand == old(isNewBrand) && isNewModel == old(isNewModel)
      ensures loading == old(loading) && photos == old(photos) && details == old(details)
    {
      if !(selectedBrand.Unselected? || isNewBrand || isNewModel) {
        selectedModel := choice;
      }
    }

    /** The new-brand and new-model text boxes. */
    method TypeNames(brand: string, model: string)
      requires Valid()
      modifies this
      ensures Valid() && newBrand == brand && newModel == model
      ensures brands == old(brands) && models == old(models)
      ensures selectedBrand == old(selectedBrand) && selectedModel == old(selectedModel)
      ensures isNewBrand == old(isNewBrand) && isNewModel == old(isNewModel)
      ensures loading == old(loading) && photos == old(photos) && details == old(details)
    {
      newBrand := brand;
      newModel := model;
    }

    /** The "new brand" checkbox: ticking it clears the selected brand and
        the model list; unticking keeps both. */
    method ToggleNewBrand(checked: bool)
      requires Valid()
      modifies this
      ensures Valid() && isNewBrand == checked
      ensures checked ==> selectedBrand == Unselected && models == []
      ensures !checked ==> selectedBrand == old(selectedBrand) && models == old(models)
      ensures brands == old(brands) && selectedModel == old(selectedModel)
      ensures newBrand == old(newBrand) && newModel == old(newModel) && isNewModel == old(isNewModel)
      ensures loading == old(loading) && photos == old(photos) && details == old(details)
    {
      isNewBrand := checked;
      if checked {
        selectedBrand := Unselected;
        models := [];
      }
    }

    /** The "new model" checkbox: ticking it clears the selected model. */
    method ToggleNewModel(checked: bool)
      requires Valid()
      modifies this
      ensures Valid() && isNewModel == checked
      ensures checked ==> selectedModel == Unselected
      ensures !checked ==> selectedModel == old(selectedModel)
      ensures brands == old(brands) && models == old(models) && selectedBrand == old(selectedBrand)
      ensures newBrand == old(newBrand) && newModel == old(newModel) && isNewBrand == old(isNewBrand)
      ensures loading == old(loading) && photos == old(photos) && details == old(details)
    {
      isNewModel := checked;
      if checked {
        selectedModel := Unselected;
      }
    }

    /** `handlePhotosSelected`: keep what the uploader reported. */
    method HandlePhotosSelected(selection: PhotoSelection)
      requires Valid()
      modifies this
      ensures Valid() && photos == selection
      ensures brands == old(brands) && models == old(models)
      ensures selectedBrand == old(selectedBrand) && selectedModel == old(selectedModel)
      ensures newBrand == old(newBrand) && newModel == old(newModel)
      ensures isNewBrand == old(isNewBrand) && isNewModel == old(isNewModel)
      ensures loading == old(loading) && details == old(details)
    {
      photos := selection;
    }

    /** `handleInputChange`: store the value in the named field only. */
    method HandleInputChange(edit: DetailEdit)
      requires Valid()
      modifies this
      ensures Valid()
      ensures details == match edit {
        case LicensePlate(s) => old(details).(licensePlate := s)
        case Color(s) => old(details).(color := s)
        case ExpeditionYear(n) => old(details).(expeditionYear := n)
        case Mileage(n) => old(details).(mileage := n)
        case SellingPrice(n) => old(details).(sellingPrice := n)
        case StatusEdit(st) => old(details).(status := st)
        case Description(s) => old(details).(description := Some(s))
      }
      ensures brands == old(brands) && models == old(models)
      ensures selectedBrand == old(selectedBrand) && selectedModel == old(selectedModel)
      ensures newBrand == old(newBrand) && newModel == old(newModel)
      ensures isNewBrand == old(isNewBrand) && isNewModel == old(isNewModel)
      ensures loading == old(loading) && photos == old(photos)
    {
      match edit {
        case LicensePlate(s) => details := details.(licensePlate := s);
        case Color(s) => details := details.(color := s);
        case ExpeditionYear(n) => details := details.(expeditionYear := n);
        case Mileage(n) => details := details.(mileage := n);
        case SellingPrice(n) => details := details.(sellingPrice := n);
        case StatusEdit(st) => details := details.(status := st);
        case Description(s) => details := details.(description := Some(s));
      }
    }

    /** The start of `handleSubmit`: a submission already under way makes
        this one do nothing; otherwise loading is switched on. */
    method BeginSubmit() returns (started: bool)
      requires Valid()
      modifies this
      ensures Valid() && started == !old(loading) && loading
      ensures brands == old(brands) && models == old(models)
      ensures selectedBrand == old(selectedBrand) && selectedModel == old(selectedModel)
      ensures newBrand == old(newBrand) && newModel == old(newModel)
      ensures isNewBrand == old(isNewBrand) && isNewModel == old(isNewModel)
      ensures photos == old(photos) && details == old(details)
    {
      if loading {
        return false;
      }
      loading := true;
      started := true;
    }

    /** The `finally` of `handleSubmit`. */
    method FinishSubmit()
      requires Valid()
      modifies this
      ensures Valid() && !loading
      ensures brands == old(brands) && models == old(models)
      ensures selectedBrand == old(selectedBrand) && selectedModel == old(selectedModel)
      ensures newBrand == old(newBrand) && newModel == old(newModel)
      ensures isNewBrand == old(isNewBrand) && isNewModel == old(isNewModel)
      ensures photos == old(photos) && details == old(details)
    {
      loading := false;
    }

    /** The requests of `handleSubmit` before the car is handed on: those of
        `Plan`, sent in order, ending with the brand and model ids the car
        gets, or `None` once a request failed. */
    method SendPlan(api: Api) returns (ids: Option<(int, int)>)
      modifies api
      ensures var r := Plan(isNewBrand, newBrand, selectedBrand, isNewModel, newModel, selectedModel, old(api.pending));
        && api.log == old(api.log) + r.requests && api.pending == r.rest && ids == r.ids
    {
      if isNewBrand {
        var brand := api.Send(CreateBrand(newBrand));
        if brand.Fail? {
          return None;
        }
        var model := api.Send(CreateModel(newModel, brand.id));
        if model.Fail? {
          return None;
        }
        ids := Some((brand.id, model.id));
      } else if isNewModel {
        var model := api.Send(CreateModel(newModel, selectedBrand.ToNumber()));
        if model.Fail? {
          return None;
        }
        ids := Some((selectedBrand.ToNumber(), model.id));
      } else {
        ids := Some((selectedBrand.ToNumber(), selectedModel.ToNumber()));
      }
    }

    /** `handleSubmit`, run by the save button: while a submission is under
        way nothing happens.
        Otherwise the requests of `Plan` are sent; if one fails nothing is
        handed on. If none fails the car of `CarData` and the chosen photos
        go to the page's
        `handleCreateCar`, whose requests follow. Loading ends either way.
        The car links the brand its model was created under: the corrected
        line 139. `NewBrandDroppedAsWritten` shows the line as written. */
    method HandleSubmit(api: Api, page: CarsPage.Page) returns (submitted: Option<Car>)
      requires Valid()
      modifies this, api, page
      ensures Valid()
      ensures old(loading) ==>
        && loading && submitted == None
        && api.log == old(api.log) && api.pending == old(api.pending)
        && page.cars == old(page.cars) && page.showForm == old(page.showForm)
        && page.loading == old(page.loading) && page.error == old(page.error)
      ensures !old(loading) ==>
        var r := Plan(isNewBrand, newBrand, selectedBrand, isNewModel, newModel, selectedModel, old(api.pending));
        && !loading
        && (r.ids.None? ==>
              && submitted == None
              && api.log == old(api.log) + r.requests && api.pending == r.rest
              && page.cars == old(page.cars) && page.showForm == old(page.showForm)
              && page.loading == old(page.loading) && page.error == old(page.error))
        && (r.ids.Some? ==>
              var car := CarData(details, r.ids.value.0, r.ids.value.1, isNewBrand, newBrand, brands,
                                 isNewModel, newModel, models);
              var f := CarsPage.CreateCarFlow(car, photos, r.rest);
              && submitted == Some(car)
              && api.log == old(api.log) + r.requests + f.requests && api.pending == f.rest
              && page.cars == old(page.cars)
              && (f.succeeded ==> !page.showForm && page.loading && page.error == None)
              && (!f.succeeded ==> page.showForm == old(page.showForm) && page.loading == old(page.loading)
                                   && page.error == Some(CarsPage.CreateError)))
      ensures brands == old(brands) && models == old(models)
      ensures selectedBrand == old(selectedBrand) && selectedModel == old(selectedModel)
      ensures newBrand == old(newBrand) && newModel == old(newModel)
      ensures isNewBrand == old(isNewBrand) && isNewModel == old(isNewModel)
      ensures photos == old(photos) && details == old(details)
    {
      var started := BeginSubmit();
      if !started {
        return None;
      }
      var ids := SendPlan(api);
      if ids.None? {
        FinishSubmit();
        return None;
      }
      var car := CarData(details, ids.value.0, ids.value.1, isNewBrand, newBrand, brands, isNewModel, newModel, models);
      page.HandleCreateCar(api, car, photos);
      FinishSubmit();
      submitted := Some(car);
    }
  }
}
