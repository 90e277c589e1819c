/** frontend/src/modules/cars/utils/carUtils.ts: the Spanish licence-plate
    check and the two status lookup tables.

    The plate check is two anchored regular expressions. They are modelled as
    data for a small matcher over the regex fragment they use (a character
    class repeated between a minimum and a maximum number of times, pieces in
    sequence, anchored at both ends) and then characterised in plain terms. */
module CarUtils {
  import opened Common

  // ---------------------------------------------------------------------
  // A matcher for anchored patterns made of repeated character classes
  // ---------------------------------------------------------------------

  /** `\d` (ASCII digits only, as JavaScript without the `u` flag), `[A-Z]`,
      or an explicit set of characters such as `[BCDF...]`. */
  datatype CharClass = Digit | UpperLetter | OneOf(members: string)

  predicate InClass(cls: CharClass, c: char) {
    match cls
    case Digit => IsDigit(c)
    case UpperLetter => IsAsciiUpper(c)
    case OneOf(members) => c in members
  }

  /** `cls{min,max}` */
  datatype Piece = Piece(cls: CharClass, min: nat, max: nat)

  /** `^p[0] p[1] ...$` matches the whole of `s`. JavaScript's backtracking
      `test` succeeds exactly when some split of `s` fits the pieces, which
      is what this existential reading says. */
  function Matches(p: seq<Piece>, s: string): bool
    decreases |p|, |s|, 1
  {
    if p == [] then s == []
    else MatchRun(p[0].cls, p[0].min, p[0].max, p[1..], s)
  }

  /** Between `lo` and `hi` more characters of `cls`, then `rest`. */
  function MatchRun(cls: CharClass, lo: nat, hi: nat, rest: seq<Piece>, s: string): bool
    decreases |rest| + 1, |s|, 0
  {
    (lo == 0 && Matches(rest, s))
    || (hi > 0 && s != [] && InClass(cls, s[0])
        && MatchRun(cls, if lo > 0 then lo - 1 else 0, hi - 1, rest, s[1..]))
  }

  predicate AllIn(cls: CharClass, s: string) {
    forall i :: 0 <= i < |s| ==> InClass(cls, s[i])
  }

  /** A run matches exactly when some admissible count `k` of characters of
      the class is followed by a match of the remaining pieces. */
  lemma {:induction false} MatchRunSplit(cls: CharClass, lo: nat, hi: nat, rest: seq<Piece>, s: string, k: nat)
    requires lo <= k <= hi && k <= |s|
    requires AllIn(cls, s[..k]) && Matches(rest, s[k..])
    ensures MatchRun(cls, lo, hi, rest, s)
    decreases k
  {
    if k > 0 {
      assert InClass(cls, s[..k][0]);
      assert s[1..][..k - 1] == s[..k][1..];
      assert s[1..][k - 1..] == s[k..];
      MatchRunSplit(cls, if lo > 0 then lo - 1 else 0, hi - 1, rest, s[1..], k - 1);
    }
  }

  /** Conversely, every successful run has such a count. */
  lemma {:induction false} MatchRunWitness(cls: CharClass, lo: nat, hi: nat, rest: seq<Piece>, s: string)
    returns (k: nat)
    requires MatchRun(cls, lo, hi, rest, s)
    ensures lo <= k <= hi && k <= |s|
    ensures AllIn(cls, s[..k]) && Matches(rest, s[k..])
    decreases |s|
  {
    if lo == 0 && Matches(rest, s) {
      k := 0;
    } else {
      var k' := MatchRunWitness(cls, if lo > 0 then lo - 1 else 0, hi - 1, rest, s[1..]);
      k := k' + 1;
      assert s[1..][..k'] == s[1..k];
      assert s[1..][k'..] == s[k..];
      assert forall i :: 1 <= i < k ==> s[..k][i] == s[1..][..k'][i - 1];
    }
  }

  // ---------------------------------------------------------------------
  // The two plate formats
  // ---------------------------------------------------------------------

  /** The letters the new format allows: consonants without Q (carUtils.ts:3). */
  const NewFormatLetters: string := "BCDFGHJKLMNPRSTVWXYZ"

  /** `/^\d{4}[BCDFGHJKLMNPRSTVWXYZ]{3}$/` */
  const NewFormat: seq<Piece> := [Piece(Digit, 4, 4), Piece(OneOf(NewFormatLetters), 3, 3)]

  /** `/^[A-Z]{1,4}\d{4}$/` */
  const OldFormat: seq<Piece> := [Piece(UpperLetter, 1, 4), Piece(Digit, 4, 4)]

  /** The new format in plain words: four digits, then three allowed letters. */
  predicate IsNewFormatPlate(s: string) {
    |s| == 7
    && (forall i :: 0 <= i < 4 ==> IsDigit(s[i]))
    && (forall i :: 4 <= i < 7 ==> s[i] in NewFormatLetters)
  }

  /** The old format in plain words: one to four letters A-Z, then four digits. */
  predicate IsOldFormatPlate(s: string) {
    5 <= |s| <= 8
    && (forall i :: 0 <= i < |s| - 4 ==> IsAsciiUpper(s[i]))
    && (forall i :: |s| - 4 <= i < |s| ==> IsDigit(s[i]))
  }

  /** A match of two pieces splits the string into a run of the first class
      and a run of the second, each of an admissible length. */
  lemma TwoPieceWitness(p: Piece, q: Piece, s: string) returns (k: nat)
    requires Matches([p, q], s)
    ensures p.min <= k <= p.max && k <= |s| && q.min <= |s| - k <= q.max
    ensures AllIn(p.cls, s[..k]) && AllIn(q.cls, s[k..])
  {
    assert [p, q][1..] == [q] && [q][1..] == [];
    k := MatchRunWitness(p.cls, p.min, p.max, [q], s);
    var t := s[k..];
    var j := MatchRunWitness(q.cls, q.min, q.max, [], t);
    assert t[j..] == [];
    assert t[..j] == t;
  }

  /** What the new-format pattern matches is a new-format plate... */
  lemma NewFormatMatchSound(s: string)
    requires Matches(NewFormat, s)
    ensures IsNewFormatPlate(s)
  {
    var k := TwoPieceWitness(Piece(Digit, 4, 4), Piece(OneOf(NewFormatLetters), 3, 3), s);
    assert k == 4 && |s| == 7;
    forall i | 0 <= i < 4 ensures IsDigit(s[i]) { assert InClass(Digit, s[..k][i]); }
    forall i | 4 <= i < 7 ensures s[i] in NewFormatLetters {
      assert InClass(OneOf(NewFormatLetters), s[k..][i - 4]);
    }
  }

  /** ...and every new-format plate matches it. */
  lemma NewFormatMatchComplete(s: string)
    requires IsNewFormatPlate(s)
    ensures Matches(NewFormat, s)
  {
    var letters := [Piece(OneOf(NewFormatLetters), 3, 3)];
    assert NewFormat[1..] == letters && letters[1..] == [];
    var t := s[4..];
    assert t[3..] == [];
    MatchRunSplit(OneOf(NewFormatLetters), 3, 3, [], t, 3);
    MatchRunSplit(Digit, 4, 4, letters, s, 4);
  }

  lemma NewFormatMatchesIff(s: string)
    ensures Matches(NewFormat, s) <==> IsNewFormatPlate(s)
  {
    if Matches(NewFormat, s) {
      NewFormatMatchSound(s);
    }
    if IsNewFormatPlate(s) {
      NewFormatMatchComplete(s);
    }
  }

  /** What the old-format pattern matches is an old-format plate... */
  lemma OldFormatMatchSound(s: string)
    requires Matches(OldFormat, s)
    ensures IsOldFormatPlate(s)
  {
    var k := TwoPieceWitness(Piece(UpperLetter, 1, 4), Piece(Digit, 4, 4), s);
    assert |s| == k + 4;
    forall i | 0 <= i < |s| - 4 ensures IsAsciiUpper(s[i]) { assert InClass(UpperLetter, s[..k][i]); }
    forall i | |s| - 4 <= i < |s| ensures IsDigit(s[i]) { assert InClass(Digit, s[k..][i - k]); }
  }

  /** ...and every old-format plate matches it. */
  lemma OldFormatMatchComplete(s: string)
    requires IsOldFormatPlate(s)
    ensures Matches(OldFormat, s)
  {
    var digits := [Piece(Digit, 4, 4)];
    assert OldFormat[1..] == digits && digits[1..] == [];
    var k := |s| - 4;
    var t := s[k..];
    assert t[4..] == [];
    MatchRunSplit(Digit, 4, 4, [], t, 4);
    MatchRunSplit(UpperLetter, 1, 4, digits, s, k);
  }

  lemma OldFormatMatchesIff(s: string)
    ensures Matches(OldFormat, s) <==> IsOldFormatPlate(s)
  {
    if Matches(OldFormat, s) {
      OldFormatMatchSound(s);
    }
    if IsOldFormatPlate(s) {
      OldFormatMatchComplete(s);
    }
  }

  /** `validateSpanishLicensePlate`: the plate is in the new or the old
      format, with no trimming and no case folding. That this is exactly the
      source's test of the two anchored patterns is `PlateCheckIsPatternTest`. */
  function ValidateSpanishLicensePlate(plate: string): bool {
    IsNewFormatPlate(plate) || IsOldFormatPlate(plate)
  }

  /** The check accepts a string exactly when one of the two patterns matches
      the whole of it. */
  lemma PlateCheckIsPatternTest(plate: string)
    ensures ValidateSpanishLicensePlate(plate) <==> Matches(NewFormat, plate) || Matches(OldFormat, plate)
  {
    NewFormatMatchesIff(plate);
    OldFormatMatchesIff(plate);
  }

  /** A new-format plate never carries a vowel or a Q among its letters. */
  lemma NewFormatHasNoVowelOrQ(s: string, i: int)
    requires IsNewFormatPlate(s) && 4 <= i < 7
    ensures s[i] !in "AEIOUQ"
  {
    assert s[i] in NewFormatLetters;
  }

  /** Every accepted plate has 7 characters (new format) or 5 to 8 (old). */
  lemma AcceptedPlateLength(s: string)
    requires ValidateSpanishLicensePlate(s)
    ensures |s| == 7 || 5 <= |s| <= 8
    ensures IsNewFormatPlate(s) ==> |s| == 7
  {
  }

  /** The examples the code's comments and its error message give. */
  lemma PlateExamples()
    ensures ValidateSpanishLicensePlate("1234BCD")
    ensures ValidateSpanishLicensePlate("AB1234")
    ensures !ValidateSpanishLicensePlate("1234AAA")
    ensures !ValidateSpanishLicensePlate("12AB34")
    ensures !ValidateSpanishLicensePlate("ab1234")
    ensures !ValidateSpanishLicensePlate(" AB1234")
    ensures !ValidateSpanishLicensePlate("1234bcd")
  {
    assert "1234AAA"[4] == 'A' && 'A' !in NewFormatLetters;
    assert !IsAsciiUpper("1234AAA"[0]);
    assert !IsAsciiUpper("12AB34"[0]) && !IsDigit("12AB34"[2]);
    assert !IsAsciiUpper("ab1234"[0]) && !IsDigit("ab1234"[0]);
    assert !IsAsciiUpper(" AB1234"[0]) && !IsDigit(" AB1234"[0]);
    assert "1234bcd"[4] == 'b' && 'b' !in NewFormatLetters;
    assert !IsAsciiUpper("1234bcd"[0]);
  }

  /** Surrounding white space is not trimmed away: a plate with a space on
      either side is rejected. */
  lemma PaddedPlateRejected(s: string)
    ensures !ValidateSpanishLicensePlate(" " + s)
    ensures !ValidateSpanishLicensePlate(s + " ")
  {
    var a := " " + s;
    var b := s + " ";
    assert a[0] == ' ' && !IsDigit(a[0]) && !IsAsciiUpper(a[0]);
    assert IsOldFormatPlate(a) ==> |a| - 4 > 0;
    if |b| == 7 { assert b[6] == ' ' && ' ' !in NewFormatLetters; }
    assert b[|b| - 1] == ' ' && !IsDigit(b[|b| - 1]);
  }

  // ---------------------------------------------------------------------
  // Status lookup tables
  // ---------------------------------------------------------------------

  const StatusLabels: map<string, string> := map[
    "AVAILABLE" := "Disponible",
    "SOLD" := "Vendido",
    "RESERVED" := "Reservado",
    "MAINTENANCE" := "En Mantenimiento"]

  const StatusColors: map<string, string> := map[
    "AVAILABLE" := "bg-green-100 text-green-800",
    "SOLD" := "bg-red-100 text-red-800",
    "RESERVED" := "bg-yellow-100 text-yellow-800",
    "MAINTENANCE" := "bg-orange-100 text-orange-800"]

  const FallbackColor: string := "bg-gray-100 text-gray-800"

  predicate IsKnownStatus(status: string) {
    status == "AVAILABLE" || status == "SOLD" || status == "RESERVED" || status == "MAINTENANCE"
  }

  /** `translateStatus`: the Spanish label of a known status, any other string
      unchanged (own properties of the table only; see the as-written member
      below for what the JavaScript lookup does with inherited names). */
  function TranslateStatus(status: string): (text: string)
    ensures status == "AVAILABLE" ==> text == "Disponible"
    ensures status == "SOLD" ==> text == "Vendido"
    ensures status == "RESERVED" ==> text == "Reservado"
    ensures status == "MAINTENANCE" ==> text == "En Mantenimiento"
    ensures !IsKnownStatus(status) ==> text == status
  {
    if status in StatusLabels then StatusLabels[status] else status
  }

  /** `getStatusColor`: one of four badge classes for a known status and the
      grey fallback for any other string. */
  function StatusColor(status: string): (cls: string)
    ensures status == "AVAILABLE" ==> cls == "bg-green-100 text-green-800"
    ensures status == "SOLD" ==> cls == "bg-red-100 text-red-800"
    ensures status == "RESERVED" ==> cls == "bg-yellow-100 text-yellow-800"
    ensures status == "MAINTENANCE" ==> cls == "bg-orange-100 text-orange-800"
    ensures !IsKnownStatus(status) ==> cls == FallbackColor
  {
    if status in StatusColors then StatusColors[status] else FallbackColor
  }

  /** Distinct known statuses get distinct labels and distinct colours, and
      no known status gets the grey fallback. */
  lemma KnownStatusesDistinguished(a: string, b: string)
    requires IsKnownStatus(a) && IsKnownStatus(b) && a != b
    ensures TranslateStatus(a) != TranslateStatus(b)
    ensures StatusColor(a) != StatusColor(b)
    ensures StatusColor(a) != FallbackColor
  {
  }

  /** No label is itself a status name, so translating twice is translating once. */
  lemma TranslateStatusIdempotent(status: string)
    ensures TranslateStatus(TranslateStatus(status)) == TranslateStatus(status)
  {
  }

  // ---------------------------------------------------------------------
  // The lookups exactly as JavaScript evaluates them
  // ---------------------------------------------------------------------

  /** The names an object literal inherits from `Object.prototype`; each one
      is a truthy value when read as `table[name]`. */
  predicate IsObjectPrototypeMember(key: string) {
    key in {"constructor", "__proto__", "__defineGetter__", "__defineSetter__",
            "__lookupGetter__", "__lookupSetter__", "hasOwnProperty", "isPrototypeOf",
            "propertyIsEnumerable", "toString", "toLocaleString", "valueOf"}
  }

  /** A JavaScript value as far as these lookups can produce one: a string, or
      the member inherited from `Object.prototype` under that name. */
  datatype JsValue = JsString(s: string) | Inherited(name: string)

  /** `table[key] || fallback` on an object literal whose values are non-empty
      strings: own properties first, then the prototype chain. */
  function LookupOr(table: map<string, string>, key: string, fallback: string): (v: JsValue)
    requires forall k :: k in table ==> table[k] != "" && !IsObjectPrototypeMember(k)
    ensures key in table ==> v == JsString(table[key])
    ensures key !in table && IsObjectPrototypeMember(key) ==> v == Inherited(key)
    ensures key !in table && !IsObjectPrototypeMember(key) ==> v == JsString(fallback)
  {
    if key in table then JsString(table[key])
    else if IsObjectPrototypeMember(key) then Inherited(key)
    else JsString(fallback)
  }

  /** `statusMap[status] || status` as written (carUtils.ts:25). */
  function TranslateStatusAsWritten(status: string): JsValue {
    LookupOr(StatusLabels, status, status)
  }

  /** `colorMap[status] || 'bg-gray-100 text-gray-800'` as written (carUtils.ts:35). */
  function StatusColorAsWritten(status: string): JsValue {
    LookupOr(StatusColors, status, FallbackColor)
  }

  /** The as-written lookups agree with the corrected ones on every string
      except the names inherited from `Object.prototype`. */
  lemma AsWrittenAgreesOffPrototype(status: string)
    requires !IsObjectPrototypeMember(status)
    ensures TranslateStatusAsWritten(status) == JsString(TranslateStatus(status))
    ensures StatusColorAsWritten(status) == JsString(StatusColor(status))
  {
  }

  /** The input that shows the discrepancy: "toString" is neither passed
      through nor given the grey class; the lookup returns the inherited
      `Object.prototype.toString` function instead. */
  lemma InheritedNameLeaks()
    ensures TranslateStatusAsWritten("toString") == Inherited("toString")
    ensures TranslateStatus("toString") == "toString"
    ensures StatusColorAsWritten("toString") == Inherited("toString")
    ensures StatusColor("toString") == FallbackColor
  {
  }
}
