/**
  The request-field checks both validator files are built from. A chain
  such as `body("f").trim().escape().notEmpty().isLength({ min: 5 })` turns
  the field into text, passes it through the sanitizers in order, and
  accepts the field only when every check in the chain holds of the text as
  it stands at that point.
*/
module FieldRules {
  import opened JsValues

  /** The two sanitizers, whose character-level behaviour is not modelled. */
  datatype Sanitizers = Sanitizers(trim: string -> string, escape: string -> string)

  /** `notEmpty()`: the text has at least one character. */
  predicate NotEmpty(s: string)
  {
    |s| > 0
  }

  /** `isInt()` under its default options: optional sign, then digits. */
  predicate IsInt(s: string)
  {
    IsIntText(s)
  }

  /** `body(f).notEmpty().isInt()` with no sanitizer. */
  predicate IntField(v: Value)
  {
    NotEmpty(ToText(v)) && IsInt(ToText(v))
  }

  /** `body(f).notEmpty()`: the field is present with non-empty text. */
  predicate Present(v: Value)
  {
    NotEmpty(ToText(v))
  }

  /** Every JavaScript integer that prints in plain decimal passes an
      integer-field check. */
  lemma NumberIsIntField(n: int)
    requires PrintsPlain(n)
    ensures IntField(Num(n))
  {
    IntTextRoundTrip(n);
  }

  /** A field that passes an integer-field check and is truthy is read by the
      database as the integer its text spells, so it never makes an integer
      parameter fail. */
  lemma IntFieldIsReadAsInt(v: Value)
    requires IntField(v) && Truthy(v)
    ensures ParamAsInt(v).Some?
    ensures ParamAsInt(v) == ParseIntText(ToText(v))
  {
    IntTextParamRead(v);
  }

  /** The text of a value other than a string is empty, `true`, `false`,
      or starts with a minus sign or a digit. */
  lemma NonStringText(v: Value)
    ensures !v.Str? ==> || ToText(v) == "" || ToText(v) == "true" || ToText(v) == "false"
                        || ToText(v)[0] == '-' || IsDigit(ToText(v)[0])
  {
    if v.Num? && v.n >= 0 {
      NatTextDigits(v.n);
    }
  }

  /** Only a string field can have as its text a word such as OPEN or ADMIN. */
  lemma OnlyStringsSpellWords(v: Value, word: string)
    requires |word| > 0 && ('A' <= word[0] <= 'Z' || word[0] == '_')
    requires word != "true" && word != "false"
    requires ToText(v) == word
    ensures v.Str?
  {
    NonStringText(v);
  }
}
