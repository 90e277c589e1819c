# myCars in Dafny

myCars is a small dealership app. Its frontend (Next.js) lists cars, shows
each car on a card and creates cars through a form. Its backend (Spring) keeps
brands, models, cars and car photos in a database behind REST controllers.
This project models the parts of it that carry real logic and proves what they
promise.

- **Plates and statuses** (`CarUtils`). The Spanish licence-plate check is
  modelled as two anchored patterns run by a small pattern matcher, and is
  proved equal to a plain statement of both formats. The two status lookup
  tables are modelled with their fallbacks.
- **Main photo, end to end.**
  - The uploader's selection list and main index (`CarPhotoUploader`, a class).
  - The cars page's create-then-upload loop (`CarsPage`, a class whose
    `HandleCreateCar` runs the loop).
  - The backend's `savePhoto`, whose loop clears every other main flag of the
    car before it inserts (`CarPhotoService`).
  - The card that shows the first photo flagged main (`CarCard`).
  - Together these keep "at most one main photo per car" and show that photo.
- **The two create forms** (`UiCarForm`, `SharedCarForm`). Both are classes
  over the component state. A `Remote.Api` records every request in order and
  answers it from a script of replies: a fresh id, or a failure. The proofs
  cover:
  - which brand and model requests are sent, and in what order;
  - which ids end up in the car;
  - the validation rules;
  - the `parseInt` clamping of the number inputs.
- **Brand logo paths** (`BrandsList`): `getImageUrl` on names written in
  Latin-1.
- **The REST controllers** (`BrandApi`, `ModelApi`, `CarApi`, `CarPhotoApi`).
  - Each JPA repository is a `Store.Table`: a map from generated id to row,
    with ids handed out from 1 upwards.
  - Each endpoint is a function for a read and a method for a change.
  - Each answers with a `Store.Response`: a status code and an optional body,
    or an exception that escapes the controller.

Inputs that the code gets from outside are parameters here:
- the current year and date;
- the UUID of an upload;
- whether the file system accepted a write or a delete (`storageOk`);
- the server's replies.

The model follows the code where it departs from the app's documented design:
- The backend does keep at most one main photo per car, as long as it handles
  requests one at a time. `savePhoto` clears the other flags, and
  `SaveMainLeavesOneMain` proves that this is enough.
- The form the cars page opens (frontend/src/shared/components/CarForm.tsx)
  validates nothing before it sends. Its save button is a plain button outside
  the `<form>`, so the browser's `required`, `min` and `max` checks on its
  inputs never run. Only the other form, frontend/src/modules/cars/ui/CarForm.tsx,
  validates. Its submit button is inside its form, so there the browser's
  range check on the number inputs runs first.
- A created brand's id does not reach the car. See Findings.

## Model

| member | source | states |
|---|---|---|
| Common.TrimEmptyIffBlank | frontend/src/modules/cars/ui/CarForm.tsx:99-105 | `!name.trim()` holds exactly when the name is made of JavaScript white space only |
| Domain.NameById | frontend/src/shared/components/CarForm.tsx:137-140 | the looked-up brand or model name is the name of the first listed entry with that id; with no such entry the name is '' |
| CarUtils.NewFormatMatchSound | frontend/src/modules/cars/utils/carUtils.ts:3 | whatever `/^\d{4}[BCDFGHJKLMNPRSTVWXYZ]{3}$/` matches is four digits followed by three of the allowed consonants |
| CarUtils.NewFormatMatchComplete | frontend/src/modules/cars/utils/carUtils.ts:3 | every such plate matches that pattern |
| CarUtils.NewFormatMatchesIff | frontend/src/modules/cars/utils/carUtils.ts:3 | the new-format pattern matches exactly the new-format plates |
| CarUtils.OldFormatMatchSound | frontend/src/modules/cars/utils/carUtils.ts:4 | whatever `/^[A-Z]{1,4}\d{4}$/` matches is one to four letters A-Z followed by four digits |
| CarUtils.OldFormatMatchComplete | frontend/src/modules/cars/utils/carUtils.ts:4 | every such plate matches that pattern |
| CarUtils.OldFormatMatchesIff | frontend/src/modules/cars/utils/carUtils.ts:4 | the old-format pattern matches exactly the old-format plates |
| CarUtils.PlateCheckIsPatternTest | frontend/src/modules/cars/utils/carUtils.ts:1-7 | `validateSpanishLicensePlate` is true exactly when one of the two anchored patterns matches the whole string |
| CarUtils.NewFormatHasNoVowelOrQ | frontend/src/modules/cars/utils/carUtils.ts:3 | no letter of a new-format plate is a vowel or Q |
| CarUtils.AcceptedPlateLength | frontend/src/modules/cars/utils/carUtils.ts:3-4 | an accepted plate has 7 characters (new format) or 5 to 8 (old format) |
| CarUtils.PlateExamples | frontend/src/modules/cars/utils/carUtils.ts:1-7 | "1234BCD" and "AB1234" are accepted; "1234AAA", "12AB34", lower-case plates and a plate with a leading space are rejected |
| CarUtils.PaddedPlateRejected | frontend/src/modules/cars/utils/carUtils.ts:3-6 | there is no trimming: a space before or after any string makes it a rejected plate |
| CarUtils.TranslateStatus | frontend/src/modules/cars/utils/carUtils.ts:18-26 | the four statuses get Disponible / Vendido / Reservado / En Mantenimiento; any other string comes back unchanged |
| CarUtils.StatusColor | frontend/src/modules/cars/utils/carUtils.ts:28-36 | the four statuses get their green / red / yellow / orange class; any other string gets 'bg-gray-100 text-gray-800' |
| CarUtils.KnownStatusesDistinguished | frontend/src/modules/cars/utils/carUtils.ts:18-36 | different statuses get different labels and colours, and none gets the grey fallback |
| CarUtils.TranslateStatusIdempotent | frontend/src/modules/cars/utils/carUtils.ts:18-26 | translating a translated status changes nothing |
| CarUtils.LookupOr | frontend/src/modules/cars/utils/carUtils.ts:25 | `table[key] \|\| fallback` on an object literal gives an own entry, then a member inherited from `Object.prototype`, then the fallback |
| CarUtils.AsWrittenAgreesOffPrototype | frontend/src/modules/cars/utils/carUtils.ts:18-36 | on every string other than an `Object.prototype` member name, the lookups as written agree with `TranslateStatus` and `StatusColor` |
| CarUtils.InheritedNameLeaks | frontend/src/modules/cars/utils/carUtils.ts:25 | as written, "toString" yields the inherited function instead of "toString" or the grey class |
| CarPhotoUploader.ImagesOnly | frontend/src/shared/components/CarPhotoUploader.tsx:17 | the filter keeps only images and never lengthens the list |
| CarPhotoUploader.ImagesOnlyMembers | frontend/src/shared/components/CarPhotoUploader.tsx:17 | a picked file is kept exactly when its type starts with "image/" |
| CarPhotoUploader.ImagesOnlyKeepsImages | frontend/src/shared/components/CarPhotoUploader.tsx:17 | filtering a list of images changes nothing |
| CarPhotoUploader.RemoveAtSplices | frontend/src/shared/components/CarPhotoUploader.tsx:52 | removal deletes exactly the entry at the index and keeps the others in order; an index outside the list removes nothing |
| CarPhotoUploader.RemovalKeepsMainFile | frontend/src/shared/components/CarPhotoUploader.tsx:54-61 | removing a photo that is not the main one leaves the same file as main |
| CarPhotoUploader.AddKeepsMainInRange | frontend/src/shared/components/CarPhotoUploader.tsx:16-21 | adding files keeps the main index inside the list |
| CarPhotoUploader.RemoveKeepsMainInRange | frontend/src/shared/components/CarPhotoUploader.tsx:51-63 | removing an entry keeps the main index inside the list, and 0 once the list is empty |
| CarPhotoUploader.Uploader.constructor | frontend/src/shared/components/CarPhotoUploader.tsx:11-13 | no files and main index 0 |
| CarPhotoUploader.Uploader.HandleFileSelect | frontend/src/shared/components/CarPhotoUploader.tsx:16-32 | the images among the picked files are appended in order and reported with the unchanged main index; with no image nothing changes and nothing is reported |
| CarPhotoUploader.Uploader.RemovePhoto | frontend/src/shared/components/CarPhotoUploader.tsx:51-63 | the entry goes; the main index becomes 0 if it was removed, one less if it came later, and otherwise stays; the new selection is reported |
| CarPhotoUploader.Uploader.SetMainPhoto | frontend/src/shared/components/CarPhotoUploader.tsx:65-68 | only the main index changes, to any index given, with no bounds check |
| BrandsList.LowerChar | frontend/src/shared/components/BrandsList.tsx:45 | a lower-cased character is no upper-case letter of Latin-1 |
| BrandsList.Decompose | frontend/src/shared/components/BrandsList.tsx:48 | NFD splits an accented lower-case Latin-1 letter into a letter a-z and a mark in U+0300..U+036F |
| BrandsList.ToLower | frontend/src/shared/components/BrandsList.tsx:45 | `toLowerCase` works character by character |
| BrandsList.FilterMembers | frontend/src/shared/components/BrandsList.tsx:46-48 | each `replace` keeps exactly the characters it does not delete |
| BrandsList.NfdMembers | frontend/src/shared/components/BrandsList.tsx:48 | after NFD only undecomposable characters of the input, base letters and marks remain |
| BrandsList.FormattedNameIsClean | frontend/src/shared/components/BrandsList.tsx:45-48 | the formatted name has no upper-case letter, no '-', no white space, no accented letter and no combining mark |
| BrandsList.FormatKeepsCleanName | frontend/src/shared/components/BrandsList.tsx:45-48 | a name made of such characters is returned unchanged |
| BrandsList.FormatIdempotent | frontend/src/shared/components/BrandsList.tsx:45-48 | formatting a formatted name changes nothing |
| BrandsList.ImageUrlShape | frontend/src/shared/components/BrandsList.tsx:50 | the path is "/brands/" + formatted name + ".png" |
| BrandsList.FormatAppend | frontend/src/shared/components/BrandsList.tsx:45-48 | formatting works piece by piece: the formatted concatenation is the concatenation of the formatted parts |
| BrandsList.SeparatorDropped | frontend/src/shared/components/BrandsList.tsx:46-47 | a '-' or white-space character between two parts disappears |
| BrandsList.AccentStripped | frontend/src/shared/components/BrandsList.tsx:48 | an accented letter, upper- or lower-case, becomes its base letter |
| BrandsList.AcuteE | frontend/src/shared/components/BrandsList.tsx:48 | é becomes e |
| BrandsList.TildeN | frontend/src/shared/components/BrandsList.tsx:48 | Ñ becomes n |
| BrandsList.CedillaC | frontend/src/shared/components/BrandsList.tsx:48 | Ç becomes c |
| BrandsList.BmwName | frontend/src/shared/components/BrandsList.tsx:43-50 | "BMW" formats to "bmw" |
| BrandsList.AudiName | frontend/src/shared/components/BrandsList.tsx:43-50 | "Audi" formats to "audi" |
| BrandsList.PorscheName | frontend/src/shared/components/BrandsList.tsx:43-50 | "Porsche" formats to "porsche" |
| BrandsList.HyphenatedLogo | frontend/src/shared/components/BrandsList.tsx:43-50 | two letter-only words joined by '-' give "/brands/" + both words lower-cased and run together + ".png" |
| BrandsList.MercedesBenzLogo | frontend/src/shared/components/BrandsList.tsx:43-50 | "Mercedes-Benz" gives "/brands/mercedesbenz.png", the path the home page uses |
| CarCard.FirstMainIndex | frontend/src/modules/cars/ui/CarCard.tsx:26 | `find` stops at a flagged photo with no flagged photo before it, and finds nothing only when no photo is flagged |
| CarCard.MainPhotoIsFirstFlagged | frontend/src/modules/cars/ui/CarCard.tsx:26 | there is a main photo exactly when photos are present and one is flagged, and it is the first flagged one |
| CarCard.UniqueMainIsShown | frontend/src/modules/cars/ui/CarCard.tsx:26 | when exactly one photo is flagged, that photo is shown wherever it is in the list |
| CarCard.ImageSrcResolves | frontend/src/modules/cars/ui/CarCard.tsx:39 | a URL starting with "http" is kept and any other gets the API base URL in front; the result is absolute, so resolving twice changes nothing |
| CarCard.Render | frontend/src/modules/cars/ui/CarCard.tsx:17-24 | the invalid-data card is shown exactly when the car, its model or its brand is missing |
| CarCard.RenderDetails | frontend/src/modules/cars/ui/CarCard.tsx:28-111 | a valid car shows its brand and model names and its year; the price, or 'Precio no disponible' without one; and a link to "/cars/" + id |
| CarCard.RenderImage | frontend/src/modules/cars/ui/CarCard.tsx:36-53 | an image is shown exactly when there is a main photo, with that photo's resolved, absolute URL |
| CarCard.BadgeIsKnown | frontend/src/modules/cars/ui/CarCard.tsx:63-66 | the badge shows `translateStatus` of the status, one of the four Spanish labels, and never the grey class |
| CarsPage.UploadsInOrder | frontend/src/app/cars/page.tsx:49-57 | one upload per file, in index order, all to the same car, flagged main exactly at the main index; they stop early only after a rejected upload |
| CarsPage.UploadFlowMainCount | frontend/src/app/cars/page.tsx:49-57 | at most one upload is main; exactly one when all went through and the index is in range; none when it is not |
| CarsPage.CreateBeforeUploads | frontend/src/app/cars/page.tsx:39-58 | the car is created first, and every upload goes to the id the server returned; if the creation fails nothing is uploaded |
| CarsPage.NoPhotosNoUploads | frontend/src/app/cars/page.tsx:45 | without files only the car is created |
| CarsPage.CreateCarMainCount | frontend/src/app/cars/page.tsx:49-51 | at most one upload of a created car is main; exactly one when all went through with the index in range; none for the form's initial -1 |
| CarsPage.UploadPhotos | frontend/src/app/cars/page.tsx:49-57 | the photos are sent one at a time and awaited in turn, each flagged main exactly at the main index; the first rejected upload ends the loop; the requests and outcome are those of `UploadFlow` |
| CarsPage.Page.constructor | frontend/src/app/cars/page.tsx:14-17 | the form is closed, there are no cars and no error, and the page is loading |
| CarsPage.Page.OpenForm | frontend/src/app/cars/page.tsx:73 | the add button opens the form and changes nothing else |
| CarsPage.Page.BeginLoadCars | frontend/src/app/cars/page.tsx:21-24 | loading starts and any earlier error is cleared |
| CarsPage.Page.FinishLoadCars | frontend/src/app/cars/page.tsx:25-32 | on success the cars are replaced; on failure the error is 'Error al cargar los coches'; loading ends either way |
| CarsPage.Page.HandleCreateCar | frontend/src/app/cars/page.tsx:39-66 | the requests sent are those of `CreateCarFlow`; on success the form closes and the list reloads; on failure the error is 'Error al crear el coche' and the form stays open |
| UiCarForm.ParseClamped | frontend/src/modules/cars/ui/CarForm.tsx:116 | a number input is never negative; it is 0 or what `parseInt` read |
| UiCarForm.ParseIntSkipsSpace | frontend/src/modules/cars/ui/CarForm.tsx:116 | leading white space does not change what `parseInt` reads |
| UiCarForm.ParseClampedReadsDecimal | frontend/src/modules/cars/ui/CarForm.tsx:116 | a number typed in decimal is read back as that number |
| UiCarForm.NegativeInputIsZero | frontend/src/modules/cars/ui/CarForm.tsx:116 | any input starting with '-' is stored as 0 |
| UiCarForm.SurroundedNumberIsRead | frontend/src/modules/cars/ui/CarForm.tsx:116 | leading white space is skipped and anything after the digits (other than more digits or an x) is ignored |
| UiCarForm.TextIsZero | frontend/src/modules/cars/ui/CarForm.tsx:116 | text starting with anything but white space, a sign or a digit ("abc", say) is stored as 0 |
| UiCarForm.HexIsRead | frontend/src/modules/cars/ui/CarForm.tsx:116 | a 0x prefix reads hexadecimal, as `parseInt` does |
| UiCarForm.CheckAdds | frontend/src/modules/cars/ui/CarForm.tsx:77-105 | checking the rules one after another keeps the errors already found and adds one, with its message, for each broken rule |
| UiCarForm.ValidationErrorsAreBrokenRules | frontend/src/modules/cars/ui/CarForm.tsx:76-108 | the error dictionary holds one entry, with the rule's message, for each broken rule and nothing else |
| UiCarForm.ErrorKeyNamesDistinct | frontend/src/modules/cars/ui/CarForm.tsx:79-105 | the dictionary keys are all different |
| UiCarForm.NoErrorsIffRulesHold | frontend/src/modules/cars/ui/CarForm.tsx:76-108 | the form is valid exactly when the plate is valid, the colour is set, 1900 <= year <= current year, mileage >= 0, price > 0, and a new brand or model name is not blank |
| UiCarForm.NameRules | frontend/src/modules/cars/ui/CarForm.tsx:99-105 | a new brand or model name is missing exactly when its box is ticked and the name is only white space |
| UiCarForm.NoneBrokenIffRulesHold | frontend/src/modules/cars/ui/CarForm.tsx:79-105 | no rule is broken exactly when all of them hold |
| UiCarForm.BrowserLeavesPriceRule | frontend/src/modules/cars/ui/CarForm.tsx:326-368 | once the browser's range check of the number inputs has passed, no year or mileage error can appear, and a price error appears exactly for price 0 |
| UiCarForm.YearBounds | frontend/src/modules/cars/ui/CarForm.tsx:87-89 | the year error appears exactly for a year before 1900 or after the current year, and its message names the current year |
| UiCarForm.StatusOptionsAgreeWithTranslation | frontend/src/modules/cars/ui/CarForm.tsx:12-17 | the form's status labels are those `translateStatus` gives |
| UiCarForm.ResolveRequests | frontend/src/modules/cars/ui/CarForm.tsx:141-170 | a brand is created exactly when "new brand" is ticked, and first; a model only when "new model" is ticked, for the resolved brand id; the ids are known exactly when no request failed |
| UiCarForm.CreatedBrandIsEmbedded | frontend/src/modules/cars/ui/CarForm.tsx:172-184 | the submitted car has id '' and embeds the created brand, with its id and typed name |
| UiCarForm.Form.constructor | frontend/src/modules/cars/ui/CarForm.tsx:20-36 | the fields are empty, the year is the current one, mileage and price are 0, and the status is AVAILABLE |
| UiCarForm.Form.HandleTextChange | frontend/src/modules/cars/ui/CarForm.tsx:111-131 | the plate or colour is stored as typed, and only that field's error is removed |
| UiCarForm.Form.HandleNumberChange | frontend/src/modules/cars/ui/CarForm.tsx:111-131 | mileage or price is stored clamped, and only that field's error is removed |
| UiCarForm.Form.HandleYearChange | frontend/src/modules/cars/ui/CarForm.tsx:111-131 | the year is stored, and only its error is removed |
| UiCarForm.Form.HandleStatusChange | frontend/src/modules/cars/ui/CarForm.tsx:111-131 | the status is stored, and only the status key is removed |
| UiCarForm.Form.ToggleNewBrand | frontend/src/modules/cars/ui/CarForm.tsx:210-216 | ticking "new brand" clears the selected brand and the model list |
| UiCarForm.Form.ToggleNewModel | frontend/src/modules/cars/ui/CarForm.tsx:253-258 | ticking "new model" clears the selected model |
| UiCarForm.Form.ValidateForm | frontend/src/modules/cars/ui/CarForm.tsx:76-109 | the errors become those of the broken rules, and the result is true exactly when there are none |
| UiCarForm.Form.HandleSubmit | frontend/src/modules/cars/ui/CarForm.tsx:134-194 | nothing happens when the browser's range check of the year, mileage and price inputs fails; a failed validation sends nothing; otherwise the requests of `Resolve` are sent; a failed request records the 'submit' error and submits nothing; otherwise the car of `CarData` is submitted |
| SharedCarForm.PlanRequests | frontend/src/shared/components/CarForm.tsx:97-130 | a new brand sends a brand request and then a model request for the returned id, whatever "new model" says; else a new model sends one model request for `Number(selectedBrand)`; else nothing is sent and the selected ids are used |
| SharedCarForm.PlanOutcome | frontend/src/shared/components/CarForm.tsx:94-130 | every request but the last got an id; the ids are missing exactly when the last request failed; the model id is the last reply; the brand id is the one the model request named |
| SharedCarForm.UntouchedSelectsGiveZeroIds | frontend/src/shared/components/CarForm.tsx:128-130 | nothing checks the selects: with neither box ticked and no option chosen, no request is sent and the car links model 0 of brand 0 |
| SharedCarForm.CarDataFields | frontend/src/shared/components/CarForm.tsx:133-143 | the car keeps every typed field and has no id; typed names are used when the boxes are ticked, and otherwise the name of the first listed entry with the id, or '' when none has it |
| SharedCarForm.NewBrandDroppedAsWritten | frontend/src/shared/components/CarForm.tsx:139 | as written, a car for a new brand created with id b != 0 points at brand 0, while its model was created under b |
| SharedCarForm.SubmittedCarEmbedsCreatedBrand | frontend/src/shared/components/CarForm.tsx:133-143 | the corrected car points at the brand its model was created under (the created brand for a new brand) and at the created model |
| SharedCarForm.Form.constructor | frontend/src/shared/components/CarForm.tsx:19-37 | empty selects and fields, the current year, 0 for mileage and price, AVAILABLE, description '', no photos with main index -1, not loading |
| SharedCarForm.Form.BrandsLoaded | frontend/src/shared/components/CarForm.tsx:59-67 | the fetched brands replace the list and nothing else changes |
| SharedCarForm.Form.ModelsLoaded | frontend/src/shared/components/CarForm.tsx:69-77 | the fetched models replace the list and nothing else changes |
| SharedCarForm.Form.SelectBrand | frontend/src/shared/components/CarForm.tsx:199-202 | the brand select changes the selection unless "new brand" is ticked |
| SharedCarForm.Form.SelectModel | frontend/src/shared/components/CarForm.tsx:247-250 | the model select is disabled without a selected brand or while either box is ticked |
| SharedCarForm.Form.TypeNames | frontend/src/shared/components/CarForm.tsx:232-279 | the typed brand and model names are stored |
| SharedCarForm.Form.ToggleNewBrand | frontend/src/shared/components/CarForm.tsx:214-220 | ticking "new brand" clears the selected brand and the model list; unticking keeps both |
| SharedCarForm.Form.ToggleNewModel | frontend/src/shared/components/CarForm.tsx:262-267 | ticking "new model" clears the selected model |
| SharedCarForm.Form.HandlePhotosSelected | frontend/src/shared/components/CarForm.tsx:79-81 | the uploader's report is kept as the photo selection |
| SharedCarForm.Form.HandleInputChange | frontend/src/shared/components/CarForm.tsx:83-86 | the named field takes the new value and no other field changes |
| SharedCarForm.Form.BeginSubmit | frontend/src/shared/components/CarForm.tsx:90-93 | a submission starts only when none is under way, and loading is on afterwards |
| SharedCarForm.Form.FinishSubmit | frontend/src/shared/components/CarForm.tsx:148-150 | loading ends |
| SharedCarForm.Form.SendPlan | frontend/src/shared/components/CarForm.tsx:97-130 | the brand and model requests are those of `Plan`, sent in order; the ids are those the plan ends with, and none once a request failed |
| SharedCarForm.Form.HandleSubmit | frontend/src/shared/components/CarForm.tsx:88-151 | while loading nothing happens; otherwise the requests of `Plan` are sent; a failure hands nothing on; success hands the car and photos to the page, whose requests follow; loading ends either way |
| Store.Lookup | backend/src/main/java/com/example/MyCars/controllers/BrandController.java:49-51 | a get-by-id answers 200 with the stored entity and its id exactly when the id is stored, and 404 with no body otherwise |
| Store.InsertedIsFound | backend/src/main/java/com/example/MyCars/services/BrandService.java:22-28 | a row just saved is found under its new id; no other lookup changes; after deletion its id answers 404 |
| Store.Table.FindById | backend/src/main/java/com/example/MyCars/services/CarService.java:22-24 | an entity is found exactly when its id is stored, with that id and its columns |
| Store.Table.Insert | backend/src/main/java/com/example/MyCars/services/BrandService.java:26-28 | saving a new entity stores it under a fresh id, which no stored row has, and returns it with that id |
| Store.Table.Overwrite | backend/src/main/java/com/example/MyCars/services/CarService.java:31-33 | saving an entity whose id is stored replaces that row only |
| Store.Table.DeleteById | backend/src/main/java/com/example/MyCars/services/BrandService.java:30-32 | deletion removes that row only |
| BrandApi.BrandController.GetAllBrands | backend/src/main/java/com/example/MyCars/controllers/BrandController.java:37-39 | 200 with every stored brand |
| BrandApi.BrandController.GetBrandById | backend/src/main/java/com/example/MyCars/controllers/BrandController.java:47-52 | 200 with the brand if it is stored, 404 otherwise |
| BrandApi.BrandController.CreateBrand | backend/src/main/java/com/example/MyCars/controllers/BrandController.java:60-64 | the brand is stored under a fresh id; 201 with the saved brand |
| BrandApi.BrandController.UpdateBrand | backend/src/main/java/com/example/MyCars/controllers/BrandController.java:73-82 | 404 with no change for a missing id; otherwise the body is saved under the path id, whatever id it carried; 200 |
| BrandApi.BrandController.DeleteBrand | backend/src/main/java/com/example/MyCars/controllers/BrandController.java:90-98 | 404 with no change for a missing id; otherwise the brand is removed; 204 |
| Store.RowsWhere | backend/src/main/java/com/example/MyCars/services/ModelService.java:27-29 | a `findBy<column>` query (`findByBrand` here, `findByCar` for photos) gives exactly the stored rows whose column matches, each with its stored value |
| ModelApi.ModelListsFollowChanges | backend/src/main/java/com/example/MyCars/controllers/ModelController.java:63-115 | a saved model joins exactly its brand's list; a new model leaves other brands' lists alone; a deleted model leaves its list |
| ModelApi.ModelController.GetAllModels | backend/src/main/java/com/example/MyCars/controllers/ModelController.java:40-43 | 200 with every stored model |
| ModelApi.ModelController.GetModelById | backend/src/main/java/com/example/MyCars/controllers/ModelController.java:50-56 | 200 with the model if it is stored, 404 otherwise |
| ModelApi.ModelController.GetModelsByBrand | backend/src/main/java/com/example/MyCars/controllers/ModelController.java:63-69 | 404 when the brand is not stored; otherwise 200 with exactly the models of that brand, with their stored values |
| ModelApi.ModelController.CreateModel | backend/src/main/java/com/example/MyCars/controllers/ModelController.java:76-81 | the model is stored under a fresh id; 201 with the saved model |
| ModelApi.ModelController.UpdateModel | backend/src/main/java/com/example/MyCars/controllers/ModelController.java:89-99 | 404 with no change for a missing id; otherwise the body is saved under the path id; 200 |
| ModelApi.ModelController.DeleteModel | backend/src/main/java/com/example/MyCars/controllers/ModelController.java:106-115 | 404 with no change for a missing id; otherwise the model is removed; 204 |
| CarApi.Stamped | backend/src/main/java/com/example/MyCars/controllers/CarController.java:69 | a saved car's creation date is today's, whatever the request said, and every other column is the request's |
| CarApi.StampTwiceIsOnce | backend/src/main/java/com/example/MyCars/services/CarService.java:26-29 | stamping again on the same day, as the service does after the controller, changes nothing |
| CarApi.CarController.GetCars | backend/src/main/java/com/example/MyCars/controllers/CarController.java:41-44 | every stored car |
| CarApi.CarController.GetCarById | backend/src/main/java/com/example/MyCars/controllers/CarController.java:51-59 | 404 when no car has the id; otherwise 200 with the car |
| CarApi.CarController.SaveCar | backend/src/main/java/com/example/MyCars/controllers/CarController.java:66-72 | the car is stored under a fresh id, stamped with today; 201 with the saved car |
| CarApi.CarController.UpdateCar | backend/src/main/java/com/example/MyCars/controllers/CarController.java:80-90 | 404 with no change for a missing id; otherwise the body, creation date included, is saved under the path id; 200 |
| CarApi.CarController.DeleteCar | backend/src/main/java/com/example/MyCars/controllers/CarController.java:97-106 | 404 with no change for a missing id; otherwise the car is removed; 200, not 204 |
| CarPhotoService.LastSlash | backend/src/main/java/com/example/MyCars/services/CarPhotoService.java:76 | `lastIndexOf("/")`: the position of a '/' with none after it, or -1 when there is none |
| CarPhotoService.FileNameOf | backend/src/main/java/com/example/MyCars/services/CarPhotoService.java:76 | the recovered name is the part of the URL after its last '/', and contains no '/' |
| CarPhotoService.FileNameOfStoredUrl | backend/src/main/java/com/example/MyCars/services/CarPhotoService.java:44-76 | for a URL built by `savePhoto` from a uuid and a file name without '/', `deletePhoto` recovers exactly uuid + "_" + name |
| CarPhotoService.FileNameOfSlashedName | backend/src/main/java/com/example/MyCars/services/CarPhotoService.java:76 | when the original file name contains a '/', only its part after the last '/' is recovered, and the uuid is lost |
| CarPhotoService.MainPhotoOf | backend/src/main/java/com/example/MyCars/repositories/CarPhotoRepository.java:13 | with at most one main photo per car: nothing exactly when no photo of the car is main, and otherwise a stored main photo of that car with its id |
| CarPhotoService.ClearOneMore | backend/src/main/java/com/example/MyCars/services/CarPhotoService.java:60-65 | one step of the clearing loop clears the photo at that id if it belongs to the car, and nothing otherwise |
| CarPhotoService.SaveMainLeavesOneMain | backend/src/main/java/com/example/MyCars/services/CarPhotoService.java:55-68 | after saving a main photo, it is the only main photo of its car; only main flags of that car changed; other cars are untouched; no car has two main photos; the car's main photo is the new one |
| CarPhotoService.SaveOtherKeepsFlags | backend/src/main/java/com/example/MyCars/services/CarPhotoService.java:58 | saving a photo that is not main changes no stored photo and no car's main photo |
| CarPhotoService.DeleteKeepsFlags | backend/src/main/java/com/example/MyCars/services/CarPhotoService.java:81 | deleting keeps at most one main photo per car and promotes no other photo to main |
| CarPhotoService.PhotoService.GetPhotosByCar | backend/src/main/java/com/example/MyCars/services/CarPhotoService.java:28-30 | exactly the stored photos of that car, each with its stored columns |
| CarPhotoService.PhotoService.GetMainPhoto | backend/src/main/java/com/example/MyCars/services/CarPhotoService.java:32-34 | the main photo of the car, if any |
| CarPhotoService.PhotoService.SavePhoto | backend/src/main/java/com/example/MyCars/services/CarPhotoService.java:36-69 | a failed file write stores nothing; otherwise, for a main photo, the car's photos are cleared first; the new photo is then stored under a fresh id with URL "/uploads/cars/" + uuid + "_" + name; at most one main photo per car is kept |
| CarPhotoService.PhotoService.ClearMainPhotos | backend/src/main/java/com/example/MyCars/services/CarPhotoService.java:58-66 | the loop saves every stored photo of the car with its main flag cleared and changes no other row |
| CarPhotoService.PhotoService.DeletePhoto | backend/src/main/java/com/example/MyCars/services/CarPhotoService.java:71-82 | an unknown id gives 'Foto no encontrada' and removes nothing; a failed file delete removes nothing; otherwise only that row goes, and the file deleted is the one named after the URL's last '/' |
| CarPhotoApi.MainFlag | backend/src/main/java/com/example/MyCars/controllers/CarPhotoController.java:50 | the upload is main only when `isMain` is sent as true; when it is omitted, it is false |
| CarPhotoApi.CarPhotoController.GetCarPhotos | backend/src/main/java/com/example/MyCars/controllers/CarPhotoController.java:26-33 | 404 for an unknown car; otherwise 200 with exactly that car's photos, with their stored values |
| CarPhotoApi.CarPhotoController.GetMainPhoto | backend/src/main/java/com/example/MyCars/controllers/CarPhotoController.java:35-43 | 200 exactly when the car exists and has a photo flagged main, with that photo; 404 otherwise |
| CarPhotoApi.CarPhotoController.UploadPhoto | backend/src/main/java/com/example/MyCars/controllers/CarPhotoController.java:45-61 | 404 with nothing saved for an unknown car; 500 with nothing saved when the file cannot be written; otherwise 200 with the photo `savePhoto` stored |
| CarPhotoApi.CarPhotoController.DeletePhoto | backend/src/main/java/com/example/MyCars/controllers/CarPhotoController.java:63-71 | 200 once the photo is gone; 500 when the file cannot be deleted; an unknown photo's 'Foto no encontrada' escapes as an exception instead of becoming a 404 |

## Left out

- `formatPrice` and `toLocaleString('es-ES')` are left out. They are locale
  and currency formatting over floating-point numbers in a foreign library.
  The card records a formatted amount only as `Formatted(amount)`.
- `fetch`, JSON, `FormData` and the HTTP server are left out. The frontend's
  requests are abstract `Remote.Request`s answered from a script of replies.
- Upload responses are never inspected, so `Ok` stands for any response and
  `Fail` for a rejected request.
- A response that arrives but whose body has no id is not modelled.
  - In the source, such a reply leaves `brandData.id` undefined, and the
    request carries that value on.
  - In the model, a reply is always an id or a failure.
- These outside inputs are parameters:
  - the clocks (`currentYear`, `LocalDate.now`, `new Date().toISOString()`);
  - the uploaded file's UUID;
  - the file-system work of `CarPhotoService` (`Files.copy`,
    `createDirectories`, `deleteIfExists`), which is one `storageOk` flag.
- CarApi.CarController.SaveCar: reads the clock once. The controller and then
  `CarService.createCar` each read `LocalDate.now()`, and across midnight
  these two readings could differ.
- React rendering, markup, animations, timers, drag and drop, `FileReader`
  previews and the stale-closure behaviour of hooks are left out.
  - Each handler is modelled on the state it reads at the moment it runs.
  - The `loading` guard of the shared form is modelled as a plain field.
- The `useEffect` fetches of brands and models are left out; their results
  arrive through `BrandsLoaded` / `ModelsLoaded`. The other form's failed
  fetch errors ('Error al cargar las marcas' / 'los modelos') are also left
  out.
- The number inputs of the shared form are modelled as numbers. The source
  stores the typed text as it is.
- In the other form, the year input is given as the number typed.
- UiCarForm.Form.HandleSubmit: an empty or non-numeric year is not modelled.
  The browser's range check lets it through, and `validateForm` then reports
  the year error. With a year that is a number, that error cannot appear
  (`BrowserLeavesPriceRule`). The browser's own messages are not modelled.
- UiCarForm.ParseClamped: it reads integers of any size. JavaScript
  `parseInt` loses precision above 2^53.
- `getImageUrl`: lower-casing and NFD are modelled for Latin-1 only, meaning
  A-Z, the upper-case letters U+00C0..U+00DE and the accented lower-case
  letters. Other scripts, and characters whose lower case is longer than one
  character, are left out.
- The backend's result lists are modelled as maps by id. The order in which
  the database returns rows is not modelled.
- `getAllCars`'s JOIN FETCH of details is left out. So are JPA's
  foreign-key, uniqueness and relation loading.
- `createBrand`, `createModel` and `saveCar`: a JPA `save` of a body that
  already carries an id merges into that row. The model always inserts under
  a fresh id.
- A create or update whose body references a brand, model or car that does
  not exist is not modelled. The database's foreign-key check would reject it.
- The model classes `BrandModel` and `ModelModel` are not part of this
  model. Brands and models are modelled by the columns the controllers use.
- The uploader's drag-and-drop handlers only call `handleFileSelect`, so
  they are covered by it. The preview list is left out.
- The repository abstraction `CarApiRepository`, `getAllCars` and
  `createCar` are left out. They pass calls straight through.
- The brands page fetch is left out for the same reason.
- SharedCarForm.Form.HandleSubmit: hands the page the corrected car of
  `CarData`, which links the brand the model request named. As written
  (CarForm.tsx:139) the car links `Number(selectedBrand)`, which is 0 after
  "new brand" is ticked. `NewBrandDroppedAsWritten` models that version; see
  Findings.
- Concurrent backend requests are not modelled. Each request runs alone on
  the tables. `savePhoto` has no transaction, lock or unique constraint. So two
  main-photo uploads for one car that run at the same time could both clear
  the flags and then both insert a main photo. After that,
  `findByCarAndIsMainTrue` would throw. "At most one main photo per car"
  (`AtMostOneMain`, which `MainPhotoOf` requires) holds only for requests
  handled one at a time.
- Numbers are unbounded integers. The source's price is a JavaScript `number`
  and a Java `BigDecimal`, so a fractional price such as 19999.99 is valid
  there but cannot be written in the model. Year and mileage are Java
  `Integer`s in the backend, so a value above 2^31-1 is refused there. The
  model, including `UiCarForm.ParseClamped`, accepts any size.

## Findings

| source | as written | input that shows it | evidently intended | confidence | as-written member | corrected member |
|---|---|---|---|---|---|---|
| frontend/src/shared/components/CarForm.tsx:139 | the brand id embedded in the car is `isNewBrand ? Number(selectedBrand) : Number(selectedBrand)`, so a created brand's id is never used; ticking "new brand" empties the select, so the car points at brand 0 | "new brand" ticked, brand request answered with id 5, model request with id 9: the model is created under brand 5, but the car says brand 0 | the created brand's id, `brandData.id`, for a new brand | high; not executed | SharedCarForm.NewBrandDroppedAsWritten | SharedCarForm.SubmittedCarEmbedsCreatedBrand |
| frontend/src/modules/cars/utils/carUtils.ts:25 | `statusMap[status] \|\| status` also finds members inherited from `Object.prototype`; `getStatusColor` at line 35 does the same | `translateStatus("toString")` returns the function `Object.prototype.toString`, not "toString"; `getStatusColor("toString")` returns it too, not the grey class | unknown strings are returned unchanged, and unknown statuses get the grey class | medium; not executed | CarUtils.InheritedNameLeaks | CarUtils.TranslateStatus |
