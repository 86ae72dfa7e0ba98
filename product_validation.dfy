/** The ProductAddRequest field constraints, checked on the bodies of both product
    create (POST) and product update (PUT) before the service runs. */
module ProductValidation {
  import opened Common
  import opened Products

  /** One property of a JSON request body: absent, a string, or any other JSON value. */
  datatype Field = Missing | Str(text: string) | NotAString

  datatype RawProductBody = RawProductBody(name: Field, description: Field, image: Field)

  /** `@IsString() @IsNotEmpty()` */
  predicate NonEmptyString(f: Field)
  {
    f.Str? && f.text != ""
  }

  /** `name`: only a non-empty string; the documented 3..100 length is not checked. */
  predicate ValidName(f: Field)
  {
    NonEmptyString(f)
  }

  /** `description`: a non-empty string, `@MinLength(10)` and `@MaxLength(200)`. */
  predicate ValidDescription(f: Field)
  {
    NonEmptyString(f) && 10 <= |f.text| && |f.text| <= 200
  }

  /** `image`: a non-empty string. */
  predicate ValidImage(f: Field)
  {
    NonEmptyString(f)
  }

  /** The names of the properties that break a constraint, in declaration order. */
  function Violations(raw: RawProductBody): (v: seq<string>)
    ensures "name" in v <==> !ValidName(raw.name)
    ensures "description" in v <==> !ValidDescription(raw.description)
    ensures "image" in v <==> !ValidImage(raw.image)
    ensures |v| <= 3
    ensures forall x | x in v :: x == "name" || x == "description" || x == "image"
  {
    (if ValidName(raw.name) then [] else ["name"])
    + (if ValidDescription(raw.description) then [] else ["description"])
    + (if ValidImage(raw.image) then [] else ["image"])
  }

  const ValidationFailed := "Bad Request"

  /** The validation pipe: a typed body when no constraint is broken, otherwise a
      BadRequest and the service is not called. */
  function Validate(raw: RawProductBody): (r: Result<ProductBody>)
    ensures r.Ok? <==> Violations(raw) == []
    ensures r.Ok? <==> ValidName(raw.name) && ValidDescription(raw.description) && ValidImage(raw.image)
    ensures r.Err? ==> r.error == BadRequest(ValidationFailed)
    ensures r.Ok? ==> r.value == ProductBody(raw.name.text, raw.description.text, raw.image.text)
  {
    if Violations(raw) == [] then
      Ok(ProductBody(raw.name.text, raw.description.text, raw.image.text))
    else Err(BadRequest(ValidationFailed))
  }

  /** A description is accepted exactly when it is a string of 10 to 200 characters. */
  lemma DescriptionLength(text: string)
    ensures ValidDescription(Str(text)) <==> 10 <= |text| <= 200
  {
  }

  /** A one-character name passes: the documented minimum length is not enforced. */
  lemma OneCharacterNameAccepted(c: char, description: string, image: string)
    requires 10 <= |description| <= 200 && image != ""
    ensures Validate(RawProductBody(Str([c]), Str(description), Str(image))).Ok?
  {
  }
}
