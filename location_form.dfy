/**
 * The form of the web client that adds a location: five text inputs, a
 * coordinate check on submit, and a reset once the location is handed on.
 */
module LocationForm {
  import opened Wrappers

  /** The inputs of the form, by their `name` attribute. */
  datatype Field = NameField | DescriptionField | LatitudeField | LongitudeField | CategoryField

  /** The form state: the text of each input. */
  datatype FormData = FormData(
    name: string,
    description: string,
    latitude: string,
    longitude: string,
    category: string)

  /** Empty inputs, category "general". */
  const InitialFormData := FormData("", "", "", "", "general")

  const InvalidCoordinatesMessage := "Please enter valid coordinates"
  const LatitudeRangeMessage := "Latitude must be between -90 and 90"
  const LongitudeRangeMessage := "Longitude must be between -180 and 180"

  /** The text of one input. */
  function FieldValue(data: FormData, field: Field): string {
    match field
    case NameField => data.name
    case DescriptionField => data.description
    case LatitudeField => data.latitude
    case LongitudeField => data.longitude
    case CategoryField => data.category
  }

  /** The form after one input changed: that input takes the value and the others keep theirs. */
  function WithField(data: FormData, field: Field, value: string): (updated: FormData)
    ensures FieldValue(updated, field) == value
    ensures forall other: Field :: other != field ==> FieldValue(updated, other) == FieldValue(data, other)
  {
    match field
    case NameField => data.(name := value)
    case DescriptionField => data.(description := value)
    case LatitudeField => data.(latitude := value)
    case LongitudeField => data.(longitude := value)
    case CategoryField => data.(category := value)
  }

  /** What `onSubmit` receives. */
  datatype Submission = Submission(name: string, description: string, latitude: real, longitude: real, category: string)

  /**
   * The checks of `handleSubmit`, in their order: both inputs parse (`None`
   * stands for NaN), then the latitude is in [-90, 90], then the longitude is
   * in [-180, 180]; the first failing check gives the message shown.
   */
  function Submit(data: FormData, parseFloat: string -> Option<real>): (r: Result<Submission, string>)
    ensures r.Success? ==> -90.0 <= r.value.latitude <= 90.0 && -180.0 <= r.value.longitude <= 180.0
    ensures r.Failure? ==> r.error in {InvalidCoordinatesMessage, LatitudeRangeMessage, LongitudeRangeMessage}
  {
    var lat := parseFloat(data.latitude);
    var lng := parseFloat(data.longitude);
    if lat.None? || lng.None? then Failure(InvalidCoordinatesMessage)
    else if lat.value < -90.0 || lat.value > 90.0 then Failure(LatitudeRangeMessage)
    else if lng.value < -180.0 || lng.value > 180.0 then Failure(LongitudeRangeMessage)
    else Success(Submission(data.name, data.description, lat.value, lng.value, data.category))
  }

  /**
   * Each message is shown exactly when its check is the first to fail, and
   * the form is submitted exactly when both coordinates parse and lie within
   * their closed ranges, with the parsed numbers and the other inputs as typed.
   */
  lemma SubmitVerdicts(data: FormData, parseFloat: string -> Option<real>)
    ensures var lat, lng := parseFloat(data.latitude), parseFloat(data.longitude);
      var r := Submit(data, parseFloat);
      && (r == Failure(InvalidCoordinatesMessage) <==> lat.None? || lng.None?)
      && (r == Failure(LatitudeRangeMessage) <==> lat.Some? && lng.Some? && !(-90.0 <= lat.value <= 90.0))
      && (r == Failure(LongitudeRangeMessage) <==>
            lat.Some? && lng.Some? && -90.0 <= lat.value <= 90.0 && !(-180.0 <= lng.value <= 180.0))
      && (r.Success? <==> lat.Some? && lng.Some? && -90.0 <= lat.value <= 90.0 && -180.0 <= lng.value <= 180.0)
      && (r.Success? ==> r.value == Submission(data.name, data.description, lat.value, lng.value, data.category))
  {
    assert |InvalidCoordinatesMessage| == 30 && |LatitudeRangeMessage| == 35 && |LongitudeRangeMessage| == 38;
  }

  /** The bounds themselves are accepted: the poles and the antimeridian. */
  lemma BoundsInclusive(data: FormData, parseFloat: string -> Option<real>)
    requires parseFloat(data.latitude) == Some(-90.0) || parseFloat(data.latitude) == Some(90.0)
    requires parseFloat(data.longitude) == Some(-180.0) || parseFloat(data.longitude) == Some(180.0)
    ensures Submit(data, parseFloat).Success?
  {
  }

  /** The form's state, with what the page has shown and handed on so far. */
  class LocationFormState {
    var formData: FormData
    /** The messages `alert` has shown. */
    var alerts: seq<string>
    /** The locations `onSubmit` has received. */
    var submissions: seq<Submission>

    constructor()
      ensures formData == InitialFormData && alerts == [] && submissions == []
    {
      formData := InitialFormData;
      alerts := [];
      submissions := [];
    }

    /** `handleChange`: an input's new text. */
    method HandleChange(field: Field, value: string)
      modifies this
      ensures formData == WithField(old(formData), field, value)
      ensures alerts == old(alerts) && submissions == old(submissions)
    {
      formData := WithField(formData, field, value);
    }

    /**
     * `handleSubmit`: alert the first failing check and keep the form, or
     * hand the location on and reset the form to its initial inputs.
     */
    method HandleSubmit(parseFloat: string -> Option<real>)
      modifies this
      ensures match Submit(old(formData), parseFloat)
        case Success(submission) =>
          submissions == old(submissions) + [submission] && formData == InitialFormData && alerts == old(alerts)
        case Failure(message) =>
          alerts == old(alerts) + [message] && formData == old(formData) && submissions == old(submissions)
    {
      var lat := parseFloat(formData.latitude);
      var lng := parseFloat(formData.longitude);

      if lat.None? || lng.None? {
        alerts := alerts + [InvalidCoordinatesMessage];
        return;
      }

      if lat.value < -90.0 || lat.value > 90.0 {
        alerts := alerts + [LatitudeRangeMessage];
        return;
      }

      if lng.value < -180.0 || lng.value > 180.0 {
        alerts := alerts + [LongitudeRangeMessage];
        return;
      }

      submissions := submissions + [Submission(formData.name, formData.description, lat.value, lng.value, formData.category)];

      formData := InitialFormData;
    }
  }
}
