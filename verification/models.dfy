/**
 * The three kitchen entities (DishType, Cook, Dish) as records, the field
 * validators declared on them, the `clean` step that runs those validators,
 * and the `__str__` renderings.
 *
 * Validation is a separate step: the store accepts any record, and only
 * `CleanDishType`, `CleanCook` and `CleanDish` report what is wrong with one.
 */
module Models {
  import opened Wrappers
  import opened Text

  // ---------------------------------------------------------------- entities

  /** A category of dishes. A row created without a name has the empty name. */
  datatype DishType = DishType(name: string)

  /**
   * A cook: the account fields the rendering uses and the experience in
   * years. The remaining account fields (password, e-mail, flags) belong to
   * the user-account base class and are not part of this model.
   */
  datatype Cook = Cook(username: string, firstName: string, lastName: string, yearsOfExperience: int)

  /**
   * A dish: its price is held in integer cents (a decimal with two places),
   * its category is an optional DishType id. Its cooks live in the store's
   * junction table, not in the record.
   */
  datatype Dish = Dish(name: string, description: string, priceCents: int, dishType: Option<nat>)

  // ------------------------------------------------------ declared constants

  const NameMaxLength: nat := 100
  const DescriptionMaxLength: nat := 500
  const MinExperience: int := 0
  const MaxExperience: int := 40
  const DefaultExperience: int := 0
  const PriceMaxDigits: nat := 10
  const PriceDecimalPlaces: nat := 2
  /** The smallest intended price, one cent. */
  const MinPriceCents: int := 1

  const ExperienceNegativeMessage: string := "Years Of Experience can`t be negative."
  const ExperienceTooHighMessage: string := "Experience cannot exceed 40 years."
  const PriceTooLowMessage: string := "Price must be greater than 0"

  // -------------------------------------------------------------- violations

  /** The fields a validation error can be attached to. */
  datatype FieldName = NameField | DescriptionField | PriceField | DishTypeField | YearsOfExperienceField

  /**
   * What a validator objects to. `Message` carries a message written in the
   * model itself; the other kinds are the framework's own checks, whose
   * wording is not part of this model.
   */
  datatype Violation =
    | Required                  // a required field left empty
    | TooLong(maxLength: nat)   // a text longer than its max_length
    | TooManyDigits(maxDigits: nat, decimalPlaces: nat)
    | UnknownReference          // a foreign key naming no row
    | Message(text: string)

  datatype FieldError = FieldError(field: FieldName, violation: Violation)

  // -------------------------------------------------------------- validators

  /** A minimum-value validator: one message when `value` is below `limit`. */
  function MinValue(value: int, limit: int, message: string): (r: seq<string>)
    ensures r == [] <==> limit <= value
    ensures r != [] ==> r == [message]
  {
    if value < limit then [message] else []
  }

  /** A maximum-value validator: one message when `value` is above `limit`. */
  function MaxValue(value: int, limit: int, message: string): (r: seq<string>)
    ensures r == [] <==> value <= limit
    ensures r != [] ==> r == [message]
  {
    if value > limit then [message] else []
  }

  /**
   * The messages for `years_of_experience`: both of its validators run, in
   * their declared order, and every message is collected.
   */
  function ExperienceErrors(years: int): (r: seq<string>)
    ensures r == [] <==> MinExperience <= years <= MaxExperience
    ensures years < MinExperience ==> r == [ExperienceNegativeMessage]
    ensures years > MaxExperience ==> r == [ExperienceTooHighMessage]
    ensures |r| <= 1
  {
    MinValue(years, MinExperience, ExperienceNegativeMessage)
    + MaxValue(years, MaxExperience, ExperienceTooHighMessage)
  }

  /** The values of `years_of_experience` at both bounds are accepted. */
  lemma ExperienceBoundsAccepted()
    ensures ExperienceErrors(0) == [] && ExperienceErrors(40) == []
    ensures ExperienceErrors(-1) == [ExperienceNegativeMessage]
    ensures ExperienceErrors(41) == [ExperienceTooHighMessage]
  {
  }

  /**
   * The exact value of the binary double nearest to 0.01, the limit the price
   * validator is given: Float001Mantissa / Float001Scale, with the scale 2^59.
   */
  const Float001Mantissa: int := 5764607523034235
  const Float001Scale: int := 576460752303423488

  /** The constant is a 53-bit mantissa and lies within half a unit of its last place of 1/100. */
  lemma Float001IsNearestDouble()
    ensures 0x10_0000_0000_0000 <= Float001Mantissa < 0x20_0000_0000_0000
    ensures Float001Scale == 0x800_0000_0000_0000
    ensures -50 < 100 * Float001Mantissa - Float001Scale < 50
  {
  }

  /**
   * The price minimum as written: the decimal price `cents / 100` is compared
   * exactly against the double 0.01, which lies slightly above one cent.
   */
  function PriceMinimumErrorsAsWritten(cents: int): (r: seq<string>)
    ensures r == [] <==> cents * Float001Scale >= 100 * Float001Mantissa
  {
    if cents * Float001Scale < 100 * Float001Mantissa then [PriceTooLowMessage] else []
  }

  /** As written, one cent is refused: the smallest accepted price is two cents. */
  lemma OneCentRefusedAsWritten(cents: int)
    ensures PriceMinimumErrorsAsWritten(1) == [PriceTooLowMessage]
    ensures PriceMinimumErrorsAsWritten(cents) == [] <==> cents >= 2
  {
    if cents >= 2 {
      assert cents * Float001Scale >= 2 * Float001Scale;
    } else if cents <= 1 {
      assert cents * Float001Scale <= Float001Scale;
    }
  }

  /** The price minimum as intended: every price of at least one cent is accepted. */
  function PriceMinimumErrors(cents: int): (r: seq<string>)
    ensures r == [] <==> cents >= MinPriceCents
    ensures r != [] ==> r == [PriceTooLowMessage]
  {
    MinValue(cents, MinPriceCents, PriceTooLowMessage)
  }

  /** The intended check differs from the one as written exactly at one cent. */
  lemma PriceMinimumDiffersOnlyAtOneCent(cents: int)
    ensures PriceMinimumErrors(cents) != PriceMinimumErrorsAsWritten(cents) <==> cents == 1
  {
    OneCentRefusedAsWritten(cents);
  }

  /** 10 to the power `k`; the bound on a number of `k` decimal digits. */
  function Pow10(k: nat): (r: nat)
    ensures r >= 1
  {
    if k == 0 then 1 else 10 * Pow10(k - 1)
  }

  /** Number of decimal digits of `n`, counting none for 0 (the integer part of a price below 1). */
  function DigitCount(n: nat): nat
  {
    if n == 0 then 0 else 1 + DigitCount(n / 10)
  }

  lemma {:induction false} DigitCountBound(n: nat, k: nat)
    ensures DigitCount(n) <= k <==> n < Pow10(k)
  {
    if n != 0 && k != 0 {
      DigitCountBound(n / 10, k - 1);
    }
  }

  function Abs(x: int): nat { if x < 0 then -x else x }

  /**
   * The decimal-shape validator for a price with at most 10 digits of which
   * 2 are decimal places: the integer part of the price may have at most 8
   * digits.
   */
  function PriceDigitsErrors(cents: int): seq<Violation>
  {
    if DigitCount(Abs(cents) / 100) > PriceMaxDigits - PriceDecimalPlaces
    then [TooManyDigits(PriceMaxDigits, PriceDecimalPlaces)]
    else []
  }

  /** A price fits the declared decimal shape exactly when it is below 10^10 cents in size. */
  lemma PriceDigitsAccepts(cents: int)
    ensures PriceDigitsErrors(cents) == [] <==> Abs(cents) < Pow10(10)
  {
    DigitCountBound(Abs(cents) / 100, 8);
    assert Pow10(10) == 100 * Pow10(8);
  }

  /** Required text with a maximum length: an empty text is reported as missing and not measured. */
  function TextErrors(s: string, maxLength: nat): (r: seq<Violation>)
    ensures r == [] <==> 0 < |s| <= maxLength
    ensures |r| <= 1
  {
    if s == [] then [Required]
    else if |s| > maxLength then [TooLong(maxLength)]
    else []
  }

  function AtField(field: FieldName, vs: seq<Violation>): (r: seq<FieldError>)
    ensures |r| == |vs|
    ensures forall i :: 0 <= i < |r| ==> r[i] == FieldError(field, vs[i])
  {
    seq(|vs|, i requires 0 <= i < |vs| => FieldError(field, vs[i]))
  }

  function MessagesAt(field: FieldName, ms: seq<string>): (r: seq<FieldError>)
    ensures |r| == |ms|
    ensures forall i :: 0 <= i < |r| ==> r[i] == FieldError(field, Message(ms[i]))
  {
    seq(|ms|, i requires 0 <= i < |ms| => FieldError(field, Message(ms[i])))
  }

  // ------------------------------------------------------------------- clean

  /** The errors reported for a DishType: its name is required and at most 100 characters. */
  function CleanDishType(t: DishType): seq<FieldError>
  {
    AtField(NameField, TextErrors(t.name, NameMaxLength))
  }

  lemma CleanDishTypeAccepts(t: DishType)
    ensures CleanDishType(t) == [] <==> 0 < |t.name| <= NameMaxLength
  {
  }

  /** The errors reported for a Cook's own field, `years_of_experience`. */
  function CleanCook(c: Cook): seq<FieldError>
  {
    MessagesAt(YearsOfExperienceField, ExperienceErrors(c.yearsOfExperience))
  }

  /** A Cook is clean exactly when its experience is within bounds; otherwise exactly one error names the bound. */
  lemma CleanCookAccepts(c: Cook)
    ensures CleanCook(c) == [] <==> MinExperience <= c.yearsOfExperience <= MaxExperience
    ensures c.yearsOfExperience < MinExperience ==>
              CleanCook(c) == [FieldError(YearsOfExperienceField, Message(ExperienceNegativeMessage))]
    ensures c.yearsOfExperience > MaxExperience ==>
              CleanCook(c) == [FieldError(YearsOfExperienceField, Message(ExperienceTooHighMessage))]
  {
  }

  /** The price's validators in their declared order: the minimum, then the decimal shape. */
  function PriceErrors(cents: int): seq<FieldError>
  {
    MessagesAt(PriceField, PriceMinimumErrors(cents)) + AtField(PriceField, PriceDigitsErrors(cents))
  }

  /** A dish's category is required and must name an existing DishType. */
  function DishTypeErrors(ref: Option<nat>, dishTypeIds: set<nat>): seq<FieldError>
  {
    match ref
    case None => [FieldError(DishTypeField, Required)]
    case Some(id) => if id in dishTypeIds then [] else [FieldError(DishTypeField, UnknownReference)]
  }

  /**
   * The errors reported for a Dish, field by field in declaration order;
   * `dishTypeIds` are the ids of the DishType rows that exist.
   */
  function CleanDish(d: Dish, dishTypeIds: set<nat>): seq<FieldError>
  {
    AtField(NameField, TextErrors(d.name, NameMaxLength))
    + AtField(DescriptionField, TextErrors(d.description, DescriptionMaxLength))
    + PriceErrors(d.priceCents)
    + DishTypeErrors(d.dishType, dishTypeIds)
  }

  /** The declared constraints on a Dish, stated directly. */
  predicate DishIsValid(d: Dish, dishTypeIds: set<nat>)
  {
    && 0 < |d.name| <= 100
    && 0 < |d.description| <= 500
    && 1 <= d.priceCents < 10_000_000_000
    && d.dishType.Some? && d.dishType.value in dishTypeIds
  }

  /** Cleaning a Dish reports nothing exactly when all its declared constraints hold. */
  lemma CleanDishAccepts(d: Dish, dishTypeIds: set<nat>)
    ensures CleanDish(d, dishTypeIds) == [] <==> DishIsValid(d, dishTypeIds)
  {
    PriceDigitsAccepts(d.priceCents);
    assert Pow10(10) == 10_000_000_000;
  }

  /** A price below one cent is reported on the price field with the model's message. */
  lemma CleanDishReportsLowPrice(d: Dish, dishTypeIds: set<nat>)
    requires d.priceCents < MinPriceCents
    ensures FieldError(PriceField, Message(PriceTooLowMessage)) in CleanDish(d, dishTypeIds)
  {
    var pre := AtField(NameField, TextErrors(d.name, NameMaxLength))
               + AtField(DescriptionField, TextErrors(d.description, DescriptionMaxLength));
    assert CleanDish(d, dishTypeIds)[|pre|] == FieldError(PriceField, Message(PriceTooLowMessage));
  }

  // ----------------------------------------------------------------- records

  /** A new Cook; when no experience is given it is the field's default, 0. */
  function NewCook(username: string, firstName: string, lastName: string, years: Option<int>): (c: Cook)
    ensures years.None? ==> c.yearsOfExperience == 0
    ensures years.Some? ==> c.yearsOfExperience == years.value
    ensures c.username == username && c.firstName == firstName && c.lastName == lastName
  {
    Cook(username, firstName, lastName, years.GetOr(DefaultExperience))
  }

  // --------------------------------------------------------------- renderings

  function DishTypeStr(t: DishType): (s: string)
    ensures s == t.name
  {
    t.name
  }

  function DishStr(d: Dish): (s: string)
    ensures s == d.name
  {
    d.name
  }

  const ExperienceLabel: string := "), years of experience: "

  /** `username (first last), years of experience: n`. */
  function CookStr(c: Cook): string
  {
    c.username + " (" + c.firstName + " " + c.lastName + ExperienceLabel
    + DecimalString(c.yearsOfExperience)
  }

  /**
   * The rendering of a Cook is its username, " (", its first name, a space,
   * its last name, the experience label and its experience in decimal, from
   * which the number is read back unchanged.
   */
  lemma CookStrShowsFields(c: Cook)
    ensures var s := CookStr(c);
            var n := DecimalString(c.yearsOfExperience);
            var u := |c.username|;
            var f := |c.firstName|;
            var l := |c.lastName|;
            && |s| == u + f + l + 27 + |n|
            && s[..u] == c.username
            && s[u..u + 2] == " ("
            && s[u + 2..u + 2 + f] == c.firstName
            && s[u + 2 + f] == ' '
            && s[u + 3 + f..u + 3 + f + l] == c.lastName
            && s[u + 3 + f + l..|s| - |n|] == ExperienceLabel
            && s[|s| - |n| - 24..|s| - |n|] == ExperienceLabel
            && (if n[0] == '-' then AllDigits(n[1..]) else AllDigits(n))
            && ParseInt(s[|s| - |n|..]) == c.yearsOfExperience
  {
    var s := CookStr(c);
    var n := DecimalString(c.yearsOfExperience);
    var u, f, l := |c.username|, |c.firstName|, |c.lastName|;
    var head := c.username + " (" + c.firstName + " " + c.lastName;
    assert s == head + ExperienceLabel + n;
    assert s[..u] == c.username;
    assert s[u..u + 2] == " (";
    assert s[u + 2..u + 2 + f] == c.firstName;
    assert s[u + 2 + f] == ' ';
    assert s[u + 3 + f..u + 3 + f + l] == c.lastName;
    assert s[u + 3 + f + l..|s| - |n|] == ExperienceLabel;
    assert s[|s| - |n|..] == n;
    assert s[|s| - |n| - 24..|s| - |n|] == ExperienceLabel;
    DecimalStringRoundTrip(c.yearsOfExperience);
  }
}
