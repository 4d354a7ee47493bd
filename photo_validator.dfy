/** The validation rules of the Photo entity. */
module PhotoValidator {
  import opened Wrappers
  import opened Errors
  import opened Validation

  /** A photo entity's properties, as the validator sees them. */
  datatype Photo = Photo(
    guid: Value,
    author: Value,
    isPublic: Value,
    remotePhotoPath: Value,
    remotePhotoName: Value,
    statusMessageGuid: Value,
    text: Value,
    height: Value,
    width: Value)

  /** The property called `field`; `Nil` for a name the entity does not have. */
  function Field(photo: Photo, field: string): Value {
    match field
    case "guid" => photo.guid
    case "author" => photo.author
    case "public" => photo.isPublic
    case "remote_photo_path" => photo.remotePhotoPath
    case "remote_photo_name" => photo.remotePhotoName
    case "status_message_guid" => photo.statusMessageGuid
    case "text" => photo.text
    case "height" => photo.height
    case "width" => photo.width
    case _ => Nil
  }

  /** The rule table, one entry per `rule` line. */
  const Rules: seq<FieldRules> := [
    FieldRules("guid", [Guid(false)]),
    FieldRules("author", [NotEmpty, DiasporaId]),
    FieldRules("public", [Boolean]),
    FieldRules("remote_photo_path", [NotEmpty]),
    FieldRules("remote_photo_name", [NotEmpty]),
    FieldRules("status_message_guid", [Guid(true)]),
    FieldRules("text", [Length(65535)]),
    FieldRules("height", [Numeric]),
    FieldRules("width", [Numeric])
  ]

  /** Every failing rule of the photo. */
  function PhotoFailures(checks: Checks, photo: Photo): seq<FieldFailure> {
    Failures(checks, Rules, field => Field(photo, field))
  }

  /** A photo is valid when no rule fails. */
  predicate Valid(checks: Checks, photo: Photo) {
    PhotoFailures(checks, photo) == []
  }

  /** The entity-level validation: a valid photo passes, otherwise every failure is raised together. */
  function Validate(checks: Checks, photo: Photo): (o: Outcome<Error>)
    ensures o.Pass? <==> Valid(checks, photo)
    ensures o.Fail? ==> o.error == ValidationError(FailedRules(PhotoFailures(checks, photo)))
  {
    if Valid(checks, photo) then Pass else Fail(ValidationError(FailedRules(PhotoFailures(checks, photo))))
  }

  /**
   * What the table demands, field by field: a guid; a non-empty diaspora* ID
   * as author; a boolean public flag; non-empty remote path and name; no
   * status message guid or a valid one; a text of at most 65535 characters
   * (or none); numeric height and width.
   */
  predicate Expected(checks: Checks, photo: Photo) {
    && checks.guid(photo.guid)
    && photo.author != Nil && photo.author != Text("") && checks.diasporaId(photo.author)
    && checks.boolean(photo.isPublic)
    && photo.remotePhotoPath != Nil && photo.remotePhotoPath != Text("")
    && photo.remotePhotoName != Nil && photo.remotePhotoName != Text("")
    && (photo.statusMessageGuid == Nil || checks.guid(photo.statusMessageGuid))
    && (photo.text == Nil || (photo.text.Text? && |photo.text.text| <= 65535))
    && checks.numeric(photo.height)
    && checks.numeric(photo.width)
  }

  /** Each declared field name reads the matching property. */
  lemma FieldsOfRules(photo: Photo)
    ensures Field(photo, Rules[0].field) == photo.guid
    ensures Field(photo, Rules[1].field) == photo.author
    ensures Field(photo, Rules[2].field) == photo.isPublic
    ensures Field(photo, Rules[3].field) == photo.remotePhotoPath
    ensures Field(photo, Rules[4].field) == photo.remotePhotoName
    ensures Field(photo, Rules[5].field) == photo.statusMessageGuid
    ensures Field(photo, Rules[6].field) == photo.text
    ensures Field(photo, Rules[7].field) == photo.height
    ensures Field(photo, Rules[8].field) == photo.width
  {
  }

  /** Every rule of the table holds for the photo; `Valid` by way of `FailuresEmptyIff`. */
  predicate TableHolds(checks: Checks, photo: Photo) {
    forall i, j ::
      (0 <= i < |Rules| && 0 <= j < |Rules[i].rules|)
      ==> Holds(checks, Rules[i].rules[j], Field(photo, Rules[i].field))
  }

  /** A valid photo meets every per-field condition. */
  lemma ValidMeetsExpected(checks: Checks, photo: Photo)
    requires Valid(checks, photo)
    ensures Expected(checks, photo)
  {
    FailuresEmptyIff(checks, Rules, field => Field(photo, field));
    assert TableHolds(checks, photo);
    FieldsOfRules(photo);
    assert Holds(checks, Rules[0].rules[0], Field(photo, Rules[0].field));
    assert Holds(checks, Rules[1].rules[0], Field(photo, Rules[1].field));
    assert Holds(checks, Rules[1].rules[1], Field(photo, Rules[1].field));
    assert Holds(checks, Rules[2].rules[0], Field(photo, Rules[2].field));
    assert Holds(checks, Rules[3].rules[0], Field(photo, Rules[3].field));
    assert Holds(checks, Rules[4].rules[0], Field(photo, Rules[4].field));
    assert Holds(checks, Rules[5].rules[0], Field(photo, Rules[5].field));
    assert Holds(checks, Rules[6].rules[0], Field(photo, Rules[6].field));
    assert Holds(checks, Rules[7].rules[0], Field(photo, Rules[7].field));
    assert Holds(checks, Rules[8].rules[0], Field(photo, Rules[8].field));
  }

  /** A photo meeting every per-field condition is valid. */
  lemma ExpectedIsValid(checks: Checks, photo: Photo)
    requires Expected(checks, photo)
    ensures Valid(checks, photo)
  {
    FieldsOfRules(photo);
    forall i, j | 0 <= i < |Rules| && 0 <= j < |Rules[i].rules|
      ensures Holds(checks, Rules[i].rules[j], Field(photo, Rules[i].field))
    {
      // One case per rule line of the table.
      if i == 1 {
        assert j == 0 || j == 1;
      } else {
        assert j == 0;
      }
    }
    assert TableHolds(checks, photo);
    FailuresEmptyIff(checks, Rules, field => Field(photo, field));
  }

  /** The table accepts a photo exactly when every per-field condition holds. */
  lemma ValidIff(checks: Checks, photo: Photo)
    ensures Valid(checks, photo) <==> Expected(checks, photo)
  {
    if Valid(checks, photo) {
      ValidMeetsExpected(checks, photo);
    }
    if Expected(checks, photo) {
      ExpectedIsValid(checks, photo);
    }
  }

  /** Under the documented guid rule, a valid photo's guid has at least 16 characters. */
  lemma ValidGuidLength(checks: Checks, photo: Photo)
    requires Documented(checks)
    requires Valid(checks, photo)
    ensures photo.guid.Text? && |photo.guid.text| >= 16
    ensures photo.statusMessageGuid.Text? ==> |photo.statusMessageGuid.text| >= 16
  {
    ValidMeetsExpected(checks, photo);
  }
}
