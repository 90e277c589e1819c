/** frontend/src/modules/cars/ui/CarForm.tsx: the validating create form.
    Its state is a class; `validateForm` fills the error dictionary rule by
    rule, number inputs go through `parseInt` and are clamped at 0, and
    `handleSubmit` creates the brand and the model it needs before handing
    the car to `onSubmit`. The clock (`currentYear`, `toISOString`) is a
    parameter; fetching the brand and model lists is left out. */
module UiCarForm {
  import opened Common
  import opened Domain
  import opened Remote
  import CarUtils

  // ---------------------------------------------------------------------
  // parseInt and the number inputs
  // ---------------------------------------------------------------------

  predicate IsHexDigit(c: char) {
    IsDigit(c) || 'a' <= c <= 'f' || 'A' <= c <= 'F'
  }

  predicate IsRadixDigit(c: char, hex: bool) {
    if hex then IsHexDigit(c) else IsDigit(c)
  }

  /** The length of the run of digits `s` starts with. */
  function DigitRun(s: string, hex: bool): (n: nat)
    ensures n <= |s|
    ensures forall i :: 0 <= i < n ==> IsRadixDigit(s[i], hex)
    ensures n < |s| ==> !IsRadixDigit(s[n], hex)
  {
    if s != [] && IsRadixDigit(s[0], hex) then 1 + DigitRun(s[1..], hex) else 0
  }

  function HexDigitValue(c: char): (d: nat)
    requires IsHexDigit(c)
    ensures d < 16
  {
    if IsDigit(c) then DigitValue(c)
    else if 'a' <= c <= 'f' then (c as int) - ('a' as int) + 10
    else (c as int) - ('A' as int) + 10
  }

  function HexValue(ds: string): nat
    requires forall i :: 0 <= i < |ds| ==> IsHexDigit(ds[i])
  {
    if ds == [] then 0 else HexValue(ds[..|ds| - 1]) * 16 + HexDigitValue(ds[|ds| - 1])
  }

  /** The text after one leading sign, if any. */
  function AfterSign(t: string): (u: string)
    ensures |u| <= |t|
  {
    if t != [] && (t[0] == '-' || t[0] == '+') then t[1..] else t
  }

  /** A `0x` or `0X` prefix, which selects base 16. */
  predicate HasHexPrefix(u: string) {
    |u| >= 2 && u[0] == '0' && (u[1] == 'x' || u[1] == 'X')
  }

  /** The value of the digits `body` starts with, or `None` without any. */
  function ReadDigits(body: string, hex: bool): Option<nat> {
    var n := DigitRun(body, hex);
    if n == 0 then None
    else if hex then Some(HexValue(body[..n]))
    else Some(DecimalValue(body[..n]))
  }

  /** The number after one optional `0x`/`0X` prefix. */
  function ReadNumber(u: string): Option<nat> {
    if HasHexPrefix(u) then ReadDigits(u[2..], true) else ReadDigits(u, false)
  }

  /** `parseInt` once leading white space is gone: a `-` negates. */
  function ParseTrimmed(t: string): Option<int> {
    match ReadNumber(AfterSign(t))
    case None => None
    case Some(m) => Some(if t != [] && t[0] == '-' then -(m as int) else m as int)
  }

  /** JavaScript `parseInt(s)` with no radix; `None` is NaN. Leading white
      space is skipped, one sign is read, a `0x`/`0X` prefix selects base 16,
      and the longest run of digits that follows is the number. */
  function ParseInt(s: string): Option<int> {
    ParseTrimmed(TrimStart(s))
  }

  /** `value === '' ? 0 : Math.max(0, parseInt(value) || 0)`: the value of a
      mileage or price input. It is never negative, and it is either 0 or
      exactly the number `parseInt` read. */
  function ParseClamped(value: string): (n: nat)
    ensures n == 0 || ParseInt(value) == Some(n)
  {
    if value == "" then 0
    else match ParseInt(value)
      case None => 0
      case Some(v) => if v > 0 then v else 0
  }

  /** A run of digits followed by something else is read whole. */
  lemma {:induction false} DigitRunOfPrefix(ds: string, rest: string, hex: bool)
    requires forall i :: 0 <= i < |ds| ==> IsRadixDigit(ds[i], hex)
    requires rest == [] || !IsRadixDigit(rest[0], hex)
    ensures DigitRun(ds + rest, hex) == |ds|
  {
    if ds == [] {
      assert ds + rest == rest;
    } else {
      assert (ds + rest)[1..] == ds[1..] + rest;
      DigitRunOfPrefix(ds[1..], rest, hex);
    }
  }

  /** Leading white space does not change what `parseInt` reads. */
  lemma {:induction false} ParseIntSkipsSpace(ws: string, s: string)
    requires IsBlank(ws)
    ensures ParseInt(ws + s) == ParseInt(s)
  {
    TrimStartSkips(ws, s);
  }

  lemma {:induction false} TrimStartSkips(ws: string, s: string)
    requires IsBlank(ws)
    ensures TrimStart(ws + s) == TrimStart(s)
  {
    if ws == [] {
      assert ws + s == s;
    } else {
      assert (ws + s)[1..] == ws[1..] + s;
      TrimStartSkips(ws[1..], s);
    }
  }

  /** A string that starts with a digit has no leading white space or sign. */
  lemma DigitStartIsBare(s: string)
    requires s != [] && IsDigit(s[0])
    ensures TrimStart(s) == s && AfterSign(s) == s
  {
    assert !IsJsWhitespace(s[0]);
  }

  /** Decimal digits followed by anything that is not a digit read as their
      value (unless they start a `0x` prefix). */
  lemma ParseDecimalPrefix(ds: string, rest: string)
    requires ds != [] && forall i :: 0 <= i < |ds| ==> IsDigit(ds[i])
    requires rest == [] || !IsDigit(rest[0])
    requires !HasHexPrefix(ds + rest)
    ensures ParseInt(ds + rest) == Some(DecimalValue(ds))
  {
    var s := ds + rest;
    assert s[0] == ds[0];
    DigitStartIsBare(s);
    DigitRunOfPrefix(ds, rest, false);
    assert s[..|ds|] == ds;
    assert ReadDigits(s, false) == Some(DecimalValue(ds));
  }

  /** Typing a number in decimal gives that number back. */
  lemma ParseClampedReadsDecimal(n: nat)
    ensures ParseClamped(NatToString(n)) == n
  {
    var s := NatToString(n);
    assert s + "" == s;
    ParseDecimalPrefix(s, "");
    DecimalValueOfNatToString(n);
  }

  /** A leading minus sign always clamps to 0. */
  lemma NegativeInputIsZero(s: string)
    ensures ParseClamped("-" + s) == 0
  {
    var v := "-" + s;
    assert v[0] == '-' && v[1..] == s;
    assert !IsJsWhitespace(v[0]);
    assert TrimStart(v) == v;
    assert AfterSign(v) == s;
    match ReadNumber(s)
    case None =>
    case Some(m) =>
      assert ParseInt(v) == Some(-(m as int));
  }

  /** A value `parseInt` reads as a natural number is stored as that number. */
  lemma ClampedOfParsed(v: string, n: nat)
    requires |v| > 0 && ParseInt(v) == Some(n)
    ensures ParseClamped(v) == n
  {
  }

  /** Digits followed by anything but a digit or an x have no `0x` prefix. */
  lemma DigitsHaveNoHexPrefix(ds: string, rest: string)
    requires ds != [] && forall i :: 0 <= i < |ds| ==> IsDigit(ds[i])
    requires rest == [] || (!IsDigit(rest[0]) && rest[0] != 'x' && rest[0] != 'X')
    ensures !HasHexPrefix(ds + rest)
  {
    if |ds| >= 2 {
      assert (ds + rest)[1] == ds[1];
    } else if |ds + rest| >= 2 {
      assert (ds + rest)[1] == rest[0];
    }
  }

  /** `parseInt` skips the white space before decimal digits and stops at
      whatever follows them. */
  lemma SurroundedDigitsParse(ws: string, ds: string, rest: string)
    requires IsBlank(ws)
    requires ds != [] && forall i :: 0 <= i < |ds| ==> IsDigit(ds[i])
    requires rest == [] || (!IsDigit(rest[0]) && rest[0] != 'x' && rest[0] != 'X')
    ensures ParseInt(ws + ds + rest) == Some(DecimalValue(ds))
  {
    DigitsHaveNoHexPrefix(ds, rest);
    ParseDecimalPrefix(ds, rest);
    ParseIntSkipsSpace(ws, ds + rest);
    AppendAssoc(ws, ds, rest);
  }

  /** Leading white space is skipped and characters after the number are
      ignored; only an `x` right after a lone 0 would change the reading. */
  lemma SurroundedNumberIsRead(ws: string, n: nat, rest: string)
    requires IsBlank(ws)
    requires rest == [] || (!IsDigit(rest[0]) && rest[0] != 'x' && rest[0] != 'X')
    ensures ParseClamped(ws + NatToString(n) + rest) == n
  {
    SurroundedDigitsParse(ws, NatToString(n), rest);
    DecimalValueOfNatToString(n);
    assert |ws + NatToString(n) + rest| > 0;
    ClampedOfParsed(ws + NatToString(n) + rest, n);
  }

  /** Text that does not start with white space, a sign or a digit, such as
      "abc", is 0. */
  lemma TextIsZero(s: string)
    requires s != [] && !IsJsWhitespace(s[0]) && !IsDigit(s[0]) && s[0] != '-' && s[0] != '+'
    ensures ParseClamped(s) == 0
  {
    assert TrimStart(s) == s;
    assert AfterSign(s) == s;
    assert !HasHexPrefix(s);
    assert DigitRun(s, false) == 0;
  }

  /** A `0x` prefix reads hexadecimal. */
  lemma HexIsRead()
    ensures ParseClamped("0x1A") == 26
  {
    assert TrimStart("0x1A") == "0x1A";
    assert AfterSign("0x1A") == "0x1A";
    assert "0x1A"[2..] == "1A";
    assert "1A" + "" == "1A";
    DigitRunOfPrefix("1A", "", true);
    assert "1A"[..2] == "1A";
    assert "1A"[..1] == "1";
    assert HexValue("1A") == 26;
  }

  // ---------------------------------------------------------------------
  // Validation
  // ---------------------------------------------------------------------

  /** The plain fields of the form (`formData`). */
  datatype FormData = FormData(
    licensePlate: string,
    color: string,
    expeditionYear: int,
    mileage: int,
    sellingPrice: int,
    status: Status)

  /** The messages the form shows under a field, or under the form for a
      failed submission. */
  datatype ErrorMessage =
    | InvalidPlate | MissingColor | YearOutOfRange(currentYear: int) | NegativeMileage
    | NonPositivePrice | MissingBrandName | MissingModelName | SubmitFailed
  {
    function Text(): string {
      match this
      case InvalidPlate => "Matr\U{00ED}cula inv\U{00E1}lida. Debe ser formato espa\U{00F1}ol (ej: 1234ABC o AB1234)"
      case MissingColor => "El color es requerido"
      case YearOutOfRange(y) => "El a\U{00F1}o debe estar entre 1900 y " + IntToString(y)
      case NegativeMileage => "El kilometraje no puede ser negativo"
      case NonPositivePrice => "El precio debe ser mayor que 0"
      case MissingBrandName => "El nombre de la marca es requerido"
      case MissingModelName => "El nombre del modelo es requerido"
      case SubmitFailed => "Error al crear el veh\U{00ED}culo. Por favor, int\U{00E9}ntalo de nuevo."
    }
  }

  /** The keys of the `errors` dictionary: one per validated field, the
      status (whose key is cleared on change but never set), and 'submit'. */
  datatype ErrorKey =
    | PlateError | ColorError | YearError | MileageError | PriceError
    | BrandError | ModelError | StatusError | SubmitError
  {
    /** The key as the dictionary spells it. */
    function Name(): string {
      match this
      case PlateError => "licensePlate"
      case ColorError => "color"
      case YearError => "expeditionYear"
      case MileageError => "mileage"
      case PriceError => "sellingPrice"
      case BrandError => "brand"
      case ModelError => "model"
      case StatusError => "status"
      case SubmitError => "submit"
    }
  }

  /** The keys `validateForm` can set, one per rule, in the order it checks
      them. */
  const RuleOrder: seq<ErrorKey> :=
    [PlateError, ColorError, YearError, MileageError, PriceError, BrandError, ModelError]

  /** What the rules look at: the plain fields and the brand and model
      names typed when "new brand" or "new model" is ticked. */
  datatype Entered = Entered(data: FormData, isNewBrand: bool, newBrand: string,
                             isNewModel: bool, newModel: string)

  /** Whether the rule under `key` is broken. */
  predicate Broken(key: ErrorKey, e: Entered, currentYear: int) {
    match key
    case PlateError => !CarUtils.ValidateSpanishLicensePlate(e.data.licensePlate)
    case ColorError => e.data.color == ""
    case YearError => e.data.expeditionYear < 1900 || e.data.expeditionYear > currentYear
    case MileageError => e.data.mileage < 0
    case PriceError => e.data.sellingPrice <= 0
    case BrandError => e.isNewBrand && TrimsToEmpty(e.newBrand)
    case ModelError => e.isNewModel && TrimsToEmpty(e.newModel)
    case _ => false
  }

  function Message(key: ErrorKey, currentYear: int): ErrorMessage {
    match key
    case PlateError => InvalidPlate
    case ColorError => MissingColor
    case YearError => YearOutOfRange(currentYear)
    case MileageError => NegativeMileage
    case PriceError => NonPositivePrice
    case BrandError => MissingBrandName
    case ModelError => MissingModelName
    case _ => SubmitFailed
  }

  /** Record the error under `key` when its rule is broken. */
  function Record(found: map<ErrorKey, ErrorMessage>, key: ErrorKey, e: Entered, currentYear: int): map<ErrorKey, ErrorMessage> {
    if Broken(key, e, currentYear) then found[key := Message(key, currentYear)] else found
  }

  /** Check the rules of `keys` one after the other. */
  function Check(found: map<ErrorKey, ErrorMessage>, keys: seq<ErrorKey>, e: Entered, currentYear: int): map<ErrorKey, ErrorMessage>
    decreases |keys|
  {
    if keys == [] then found else Check(Record(found, keys[0], e, currentYear), keys[1..], e, currentYear)
  }

  /** The errors `validateForm` reports. */
  function ValidationErrors(e: Entered, currentYear: int): map<ErrorKey, ErrorMessage> {
    Check(map[], RuleOrder, e, currentYear)
  }

  /** Checking keeps what was found and adds, with its message, the error of
      every broken rule checked. */
  lemma {:induction false} CheckAdds(found: map<ErrorKey, ErrorMessage>, keys: seq<ErrorKey>, e: Entered, currentYear: int)
    ensures forall key :: key in Check(found, keys, e, currentYear) <==>
      key in found || (key in keys && Broken(key, e, currentYear))
    ensures forall key :: key in Check(found, keys, e, currentYear) ==>
      Check(found, keys, e, currentYear)[key] ==
        if key in keys && Broken(key, e, currentYear) then Message(key, currentYear) else found[key]
    decreases |keys|
  {
    if keys != [] {
      CheckAdds(Record(found, keys[0], e, currentYear), keys[1..], e, currentYear);
      assert forall key :: key in keys <==> key == keys[0] || key in keys[1..];
    }
  }

  /** The errors hold one entry, with its message, for each broken rule and
      nothing else. */
  lemma ValidationErrorsAreBrokenRules(e: Entered, currentYear: int)
    ensures forall key :: key in ValidationErrors(e, currentYear) <==> key in RuleOrder && Broken(key, e, currentYear)
    ensures forall key :: key in ValidationErrors(e, currentYear) ==>
      ValidationErrors(e, currentYear)[key] == Message(key, currentYear)
  {
    CheckAdds(map[], RuleOrder, e, currentYear);
  }

  /** The key names are those of the source and are all different. */
  lemma ErrorKeyNamesDistinct()
    ensures forall k1: ErrorKey, k2: ErrorKey :: k1 != k2 ==> k1.Name() != k2.Name()
  {
    forall k1: ErrorKey, k2: ErrorKey | k1 != k2
      ensures k1.Name() != k2.Name()
    {
      assert k1.Name()[0] != k2.Name()[0] || k1.Name()[|k1.Name()| - 1] != k2.Name()[|k2.Name()| - 1]
        || |k1.Name()| != |k2.Name()|;
    }
  }

  /** The browser's range check of the number inputs (`min="1900"
      max={currentYear}` on the year, `min="0"` on mileage and price). The
      submit button sits inside the form, so the submit event, and with it
      `handleSubmit`, fires only when this holds. */
  predicate BrowserAccepts(d: FormData, currentYear: int) {
    && 1900 <= d.expeditionYear <= currentYear
    && d.mileage >= 0 && d.sellingPrice >= 0
  }

  /** Past the browser's check the year and mileage messages never appear,
      while a price of 0 still gets its message. */
  lemma BrowserLeavesPriceRule(e: Entered, currentYear: int)
    requires BrowserAccepts(e.data, currentYear)
    ensures YearError !in ValidationErrors(e, currentYear)
    ensures MileageError !in ValidationErrors(e, currentYear)
    ensures PriceError in ValidationErrors(e, currentYear) <==> e.data.sellingPrice == 0
  {
    ValidationErrorsAreBrokenRules(e, currentYear);
  }

  /** All rules of the form hold. */
  predicate RulesHold(e: Entered, currentYear: int) {
    && CarUtils.ValidateSpanishLicensePlate(e.data.licensePlate)
    && e.data.color != ""
    && 1900 <= e.data.expeditionYear <= currentYear
    && e.data.mileage >= 0
    && e.data.sellingPrice > 0
    && (e.isNewBrand ==> !IsBlank(e.newBrand))
    && (e.isNewModel ==> !IsBlank(e.newModel))
  }

  /** The form is valid exactly when every rule holds; a brand or model name
      made only of white space counts as missing. */
  lemma NoErrorsIffRulesHold(e: Entered, currentYear: int)
    ensures ValidationErrors(e, currentYear) == map[] <==> RulesHold(e, currentYear)
  {
    var errs := ValidationErrors(e, currentYear);
    ValidationErrorsAreBrokenRules(e, currentYear);
    if errs == map[] {
      forall key | key in RuleOrder
        ensures !Broken(key, e, currentYear)
      {
        assert key !in errs;
      }
    } else {
      var key :| key in errs;
      assert key in RuleOrder && Broken(key, e, currentYear);
    }
    NoneBrokenIffRulesHold(e, currentYear);
  }

  /** A brand or model name made only of white space counts as missing. */
  lemma NameRules(e: Entered, currentYear: int)
    ensures Broken(BrandError, e, currentYear) == (e.isNewBrand && IsBlank(e.newBrand))
    ensures Broken(ModelError, e, currentYear) == (e.isNewModel && IsBlank(e.newModel))
  {
    TrimEmptyIffBlank(e.newBrand);
    TrimEmptyIffBlank(e.newModel);
  }

  /** No rule is broken exactly when all of them hold. */
  lemma NoneBrokenIffRulesHold(e: Entered, currentYear: int)
    ensures (forall key :: key in RuleOrder ==> !Broken(key, e, currentYear)) <==> RulesHold(e, currentYear)
  {
    NameRules(e, currentYear);
    var plate := CarUtils.ValidateSpanishLicensePlate(e.data.licensePlate);
    assert Broken(PlateError, e, currentYear) == !plate;
    var others := && e.data.color != ""
                  && 1900 <= e.data.expeditionYear <= currentYear
                  && e.data.mileage >= 0
                  && e.data.sellingPrice > 0
                  && (e.isNewBrand ==> !IsBlank(e.newBrand))
                  && (e.isNewModel ==> !IsBlank(e.newModel));
    assert RulesHold(e, currentYear) == (plate && others);
    assert Broken(ColorError, e, currentYear) == (e.data.color == "");
    assert Broken(YearError, e, currentYear) == !(1900 <= e.data.expeditionYear <= currentYear);
    assert Broken(MileageError, e, currentYear) == (e.data.mileage < 0);
    assert Broken(PriceError, e, currentYear) == (e.data.sellingPrice <= 0);
    assert RuleOrder[1..] == [ColorError, YearError, MileageError, PriceError, BrandError, ModelError];
    assert forall key :: key in RuleOrder <==> key == PlateError || key in RuleOrder[1..];
  }

  /** The year rule has the bounds 1900 and the current year, both allowed,
      and its message names the current year. */
  lemma YearBounds(e: Entered, currentYear: int)
    ensures YearError in ValidationErrors(e, currentYear)
            <==> e.data.expeditionYear < 1900 || e.data.expeditionYear > currentYear
    ensures YearError in ValidationErrors(e, currentYear) ==>
      ValidationErrors(e, currentYear)[YearError] == YearOutOfRange(currentYear)
  {
    ValidationErrorsAreBrokenRules(e, currentYear);
  }

  /** The status choices of the form carry the labels `translateStatus` gives. */
  const StatusOptions: seq<(Status, string)> :=
    [(Available, "Disponible"), (Sold, "Vendido"), (Reserved, "Reservado"), (Maintenance, "En Mantenimiento")]

  lemma StatusOptionsAgreeWithTranslation()
    ensures forall i :: 0 <= i < |StatusOptions| ==>
      StatusOptions[i].1 == CarUtils.TranslateStatus(StatusOptions[i].0.Name())
  {
  }

  // ---------------------------------------------------------------------
  // Brand and model resolution
  // ---------------------------------------------------------------------

  /** The model step, once the brand id is known. */
  function ResolveModel(brandId: int, isNewModel: bool, newModel: string, selectedModel: Selection,
                        replies: seq<Reply>): Resolution
  {
    if !isNewModel then Resolution([], Some((brandId, selectedModel.ToNumber())), replies)
    else match NextReply(replies)
      case Fail => Resolution([CreateModel(newModel, brandId)], None, Remaining(replies))
      case Ok(modelId) => Resolution([CreateModel(newModel, brandId)], Some((brandId, modelId)), Remaining(replies))
  }

  /** The brand step, then the model step. */
  function Resolve(isNewBrand: bool, newBrand: string, selectedBrand: Selection,
                   isNewModel: bool, newModel: string, selectedModel: Selection,
                   replies: seq<Reply>): Resolution
  {
    if !isNewBrand then ResolveModel(selectedBrand.ToNumber(), isNewModel, newModel, selectedModel, replies)
    else match NextReply(replies)
      case Fail => Resolution([CreateBrand(newBrand)], None, Remaining(replies))
      case Ok(brandId) =>
        var m := ResolveModel(brandId, isNewModel, newModel, selectedModel, Remaining(replies));
        Resolution([CreateBrand(newBrand)] + m.requests, m.ids, m.rest)
  }

  /** The brand id the model step works with: the created one (`None` if
      its creation failed) or the selected one. */
  function ResolvedBrand(isNewBrand: bool, selectedBrand: Selection, replies: seq<Reply>): Option<int> {
    if !isNewBrand then Some(selectedBrand.ToNumber())
    else match NextReply(replies)
      case Fail => None
      case Ok(b) => Some(b)
  }

  /** A brand is created exactly when "new brand" is ticked, and first; a
      model is created only when "new model" is ticked, for the resolved
      brand, and always once that brand is known; the ids are known exactly
      when no request failed, and are then the resolved brand and either the
      selected model or the created one. */
  lemma ResolveRequests(isNewBrand: bool, newBrand: string, selectedBrand: Selection,
                        isNewModel: bool, newModel: string, selectedModel: Selection,
                        replies: seq<Reply>)
    ensures var r := Resolve(isNewBrand, newBrand, selectedBrand, isNewModel, newModel, selectedModel, replies);
      var brand := ResolvedBrand(isNewBrand, selectedBrand, replies);
      && |r.requests| == (if isNewBrand then 1 else 0) + (if isNewModel && brand.Some? then 1 else 0)
      && (isNewBrand <==> r.requests != [] && r.requests[0] == CreateBrand(newBrand))
      && (forall k :: 0 <= k < |r.requests| && r.requests[k].CreateModel? ==>
            isNewModel && brand.Some? && r.requests[k] == CreateModel(newModel, brand.value))
      && (isNewModel && brand.Some? ==> r.requests[|r.requests| - 1] == CreateModel(newModel, brand.value))
      && (r.ids.Some? ==> brand.Some? && r.ids.value.0 == brand.value)
      && (r.ids.Some? && !isNewModel ==> r.ids.value.1 == selectedModel.ToNumber())
      && (r.ids.None? <==> brand.None? || (isNewModel && NextReply(Remaining(if isNewBrand then replies else [Fail] + replies)).Fail?))
  {
    if isNewBrand && NextReply(replies).Ok? {
      var m := ResolveModel(NextReply(replies).id, isNewModel, newModel, selectedModel, Remaining(replies));
      assert ([CreateBrand(newBrand)] + m.requests)[1..] == m.requests;
    }
    if !isNewBrand {
      assert Remaining([Fail] + replies) == replies;
    }
  }

  /** The car handed to `onSubmit`: id '', the resolved model and brand ids,
      the new names when they were typed and otherwise the names found in the
      fetched lists (or ''), and the creation time. */
  function CarData(data: FormData, brandId: int, modelId: int,
                   isNewBrand: bool, newBrand: string, brands: seq<Brand>,
                   isNewModel: bool, newModel: string, models: seq<Model>,
                   nowIso: string): Car
  {
    Car(
      Some(""),
      Some(Model(
        modelId,
        if isNewModel then newModel else NameById(models, ModelId, ModelName, modelId),
        Some(Brand(brandId, if isNewBrand then newBrand else NameById(brands, BrandId, BrandName, brandId))))),
      data.licensePlate, data.color, data.expeditionYear, data.mileage,
      Some(data.sellingPrice), data.status, None, Some(nowIso), None)
  }

  /** The submitted car embeds the brand that was created for it: when a new
      brand is created with id `b`, the car's brand id is `b`. */
  lemma CreatedBrandIsEmbedded(data: FormData, newBrand: string, selectedBrand: Selection,
                               isNewModel: bool, newModel: string, selectedModel: Selection,
                               brands: seq<Brand>, models: seq<Model>, nowIso: string,
                               b: int, replies: seq<Reply>)
    requires NextReply(replies) == Ok(b)
    requires Resolve(true, newBrand, selectedBrand, isNewModel, newModel, selectedModel, replies).ids.Some?
    ensures var ids := Resolve(true, newBrand, selectedBrand, isNewModel, newModel, selectedModel, replies).ids.value;
      var car := CarData(data, ids.0, ids.1, true, newBrand, brands, isNewModel, newModel, models, nowIso);
      && car.id == Some("")
      && car.model.value.brand.value == Brand(b, newBrand)
  {
    ResolveRequests(true, newBrand, selectedBrand, isNewModel, newModel, selectedModel, replies);
  }

  // ---------------------------------------------------------------------
  // The form
  // ---------------------------------------------------------------------

  /** The text fields that go through `handleInputChange` unparsed. */
  datatype TextField = LicensePlate | Color {
    function Key(): ErrorKey {
      match this
      case LicensePlate => PlateError
      case Color => ColorError
    }
  }

  /** The number fields that are parsed and clamped. */
  datatype NumberField = Mileage | SellingPrice {
    function Key(): ErrorKey {
      match this
      case Mileage => MileageError
      case SellingPrice => PriceError
    }
  }

  /** The form's state. The selects and the new-name boxes call their plain
      setters (`setSelectedBrand`, `setNewBrand`, `setSelectedModel`,
      `setNewModel`), which are direct writes of `selectedBrand`, `newBrand`,
      `selectedModel` and `newModel`; unlike `handleInputChange` they clear no
      error, so a 'brand' or 'model' error stays until the next validation. */
  class Form {
    var brands: seq<Brand>
    var models: seq<Model>
    var selectedBrand: Selection
    var newBrand: string
    var selectedModel: Selection
    var newModel: string
    var isNewBrand: bool
    var isNewModel: bool
    var errors: map<ErrorKey, ErrorMessage>
    var data: FormData

    /** Empty fields, the current year, 0 for mileage and price, AVAILABLE. */
    constructor(currentYear: int)
      ensures brands == [] && models == [] && errors == map[]
      ensures selectedBrand == Unselected && selectedModel == Unselected
      ensures newBrand == "" && newModel == "" && !isNewBrand && !isNewModel
      ensures data == FormData("", "", currentYear, 0, 0, Available)
    {
      brands := [];
      models := [];
      selectedBrand := Unselected;
      newBrand := "";
      selectedModel := Unselected;
      newModel := "";
      isNewBrand := false;
      isNewModel := false;
      errors := map[];
      data := FormData("", "", currentYear, 0, 0, Available);
    }

    /** `handleInputChange` on the plate or colour: store the text and drop
        that field's error, and only that one. */
    method HandleTextChange(field: TextField, value: string)
      modifies this
      ensures field.LicensePlate? ==> data == old(data).(licensePlate := value)
      ensures field.Color? ==> data == old(data).(color := value)
      ensures errors == old(errors) - {field.Key()}
      ensures brands == old(brands) && models == old(models)
      ensures selectedBrand == old(selectedBrand) && selectedModel == old(selectedModel)
      ensures newBrand == old(newBrand) && newModel == old(newModel)
      ensures isNewBrand == old(isNewBrand) && isNewModel == old(isNewModel)
    {
      match field {
        case LicensePlate => data := data.(licensePlate := value);
        case Color => data := data.(color := value);
      }
      if field.Key() in errors {
        errors := errors - {field.Key()};
      }
    }

    /** `handleInputChange` on mileage or price: store the clamped number and
        drop that field's error. */
    method HandleNumberChange(field: NumberField, value: string)
      modifies this
      ensures field.Mileage? ==> data == old(data).(mileage := ParseClamped(value))
      ensures field.SellingPrice? ==> data == old(data).(sellingPrice := ParseClamped(value))
      ensures errors == old(errors) - {field.Key()}
      ensures brands == old(brands) && models == old(models)
      ensures selectedBrand == old(selectedBrand) && selectedModel == old(selectedModel)
      ensures newBrand == old(newBrand) && newModel == old(newModel)
      ensures isNewBrand == old(isNewBrand) && isNewModel == old(isNewModel)
    {
      var parsed := ParseClamped(value);
      match field {
        case Mileage => data := data.(mileage := parsed);
        case SellingPrice => data := data.(sellingPrice := parsed);
      }
      if field.Key() in errors {
        errors := errors - {field.Key()};
      }
    }

    /** `handleInputChange` on the year, given as the number typed. */
    method HandleYearChange(year: int)
      modifies this
      ensures data == old(data).(expeditionYear := year)
      ensures errors == old(errors) - {YearError}
      ensures brands == old(brands) && models == old(models)
      ensures selectedBrand == old(selectedBrand) && selectedModel == old(selectedModel)
      ensures newBrand == old(newBrand) && newModel == old(newModel)
      ensures isNewBrand == old(isNewBrand) && isNewModel == old(isNewModel)
    {
      data := data.(expeditionYear := year);
      if YearError in errors {
        errors := errors - {YearError};
      }
    }

    /** `handleInputChange` on the status select; no rule has this key. */
    method HandleStatusChange(status: Status)
      modifies this
      ensures data == old(data).(status := status)
      ensures errors == old(errors) - {StatusError}
      ensures brands == old(brands) && models == old(models)
      ensures selectedBrand == old(selectedBrand) && selectedModel == old(selectedModel)
      ensures newBrand == old(newBrand) && newModel == old(newModel)
      ensures isNewBrand == old(isNewBrand) && isNewModel == old(isNewModel)
    {
      data := data.(status := status);
      if StatusError in errors {
        errors := errors - {StatusError};
      }
    }

    /** The "new brand" checkbox: ticking it clears the selected brand and
        the model list. */
    method ToggleNewBrand(checked: bool)
      modifies this
      ensures isNewBrand == checked
      ensures checked ==> selectedBrand == Unselected && models == []
      ensures !checked ==> selectedBrand == old(selectedBrand) && models == old(models)
      ensures brands == old(brands) && data == old(data) && errors == old(errors)
      ensures newBrand == old(newBrand) && newModel == old(newModel)
      ensures selectedModel == old(selectedModel) && isNewModel == old(isNewModel)
    {
      isNewBrand := checked;
      if checked {
        selectedBrand := Unselected;
        models := [];
      }
    }

    /** The "new model" checkbox: ticking it clears the selected model. */
    method ToggleNewModel(checked: bool)
      modifies this
      ensures isNewModel == checked
      ensures checked ==> selectedModel == Unselected
      ensures !checked ==> selectedModel == old(selectedModel)
      ensures brands == old(brands) && models == old(models) && data == old(data) && errors == old(errors)
      ensures newBrand == old(newBrand) && newModel == old(newModel)
      ensures selectedBrand == old(selectedBrand) && isNewBrand == old(isNewBrand)
    {
      isNewModel := checked;
      if checked {
        selectedModel := Unselected;
      }
    }

    /** What the rules look at. */
    function Input(): Entered
      reads this
    {
      Entered(data, isNewBrand, newBrand, isNewModel, newModel)
    }

    /** `validateForm`: the errors become exactly those of the broken rules,
        and the form is valid when there are none. */
    method ValidateForm(currentYear: int) returns (valid: bool)
      modifies this
      ensures errors == ValidationErrors(Input(), currentYear)
      ensures valid <==> errors == map[]
      ensures data == old(data) && brands == old(brands) && models == old(models)
      ensures selectedBrand == old(selectedBrand) && selectedModel == old(selectedModel)
      ensures newBrand == old(newBrand) && newModel == old(newModel)
      ensures isNewBrand == old(isNewBrand) && isNewModel == old(isNewModel)
    {
      var found := ValidationErrors(Input(), currentYear);
      errors := found;
      valid := |found| == 0;
    }

    /** The form's submit event and `handleSubmit`. Nothing happens when the
        browser's range check fails. Otherwise, no request when validation
        fails; otherwise the requests of `Resolve`, and on success the car of
        `CarData`, which is handed to `onSubmit` (returned here). A failed
        request records the 'submit' error and submits nothing. */
    method HandleSubmit(api: Api, currentYear: int, nowIso: string) returns (submitted: Option<Car>)
      modifies this, api
      ensures !BrowserAccepts(old(data), currentYear) ==>
        submitted == None && errors == old(errors) && api.log == old(api.log) && api.pending == old(api.pending)
      ensures BrowserAccepts(old(data), currentYear) ==>
        var errs := ValidationErrors(old(Input()), currentYear);
        var r := Resolve(isNewBrand, newBrand, selectedBrand, isNewModel, newModel, selectedModel, old(api.pending));
        && (errs != map[] ==> submitted == None && errors == errs && api.log == old(api.log) && api.pending == old(api.pending))
        && (errs == map[] ==> api.log == old(api.log) + r.requests && api.pending == r.rest)
        && (errs == map[] && r.ids.None? ==> submitted == None && errors == map[SubmitError := SubmitFailed])
        && (errs == map[] && r.ids.Some? ==>
              && errors == map[]
              && submitted == Some(CarData(data, r.ids.value.0, r.ids.value.1, isNewBrand, newBrand, brands,
                                           isNewModel, newModel, models, nowIso)))
      ensures data == old(data) && brands == old(brands) && models == old(models)
      ensures selectedBrand == old(selectedBrand) && selectedModel == old(selectedModel)
      ensures newBrand == old(newBrand) && newModel == old(newModel)
      ensures isNewBrand == old(isNewBrand) && isNewModel == old(isNewModel)
    {
      if !BrowserAccepts(data, currentYear) {
        return None;
      }
      var valid := ValidateForm(currentYear);
      if !valid {
        return None;
      }
      ghost var log0 := api.log;
      var brandId: int;
      if isNewBrand {
        var reply := api.Send(CreateBrand(newBrand));
        if reply.Fail? {
          errors := errors[SubmitError := SubmitFailed];
          return None;
        }
        brandId := reply.id;
      } else {
        brandId := selectedBrand.ToNumber();
      }
      var modelId: int;
      if isNewModel {
        var reply := api.Send(CreateModel(newModel, brandId));
        if reply.Fail? {
          errors := errors[SubmitError := SubmitFailed];
          return None;
        }
        modelId := reply.id;
      } else {
        modelId := selectedModel.ToNumber();
      }
      submitted := Some(CarData(data, brandId, modelId, isNewBrand, newBrand, brands,
                                isNewModel, newModel, models, nowIso));
    }
  }
}
