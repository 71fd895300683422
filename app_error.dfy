/**
 * The backend's error type and its text form. Every command returns its
 * errors to the front end as the single string that `Display` produces.
 */
module AppErrors {
  import opened Text

  /**
   * The error variants. `Database`, `Migration` and `Io` wrap an error of a
   * library outside the model; they carry that error's own rendered text.
   */
  datatype AppError =
    | Database(cause: string)
    | Migration(cause: string)
    | Validation(message: string)
    | Io(cause: string)
    | Internal(message: string)
    | Unauthorized
    | NotFound(message: string)

  /** The text each variant puts in front of its payload. */
  function Label(e: AppError): string {
    match e
    case Database(_) => "Database error: "
    case Migration(_) => "Migration error: "
    case Validation(_) => "Validation error: "
    case Io(_) => "Io error: "
    case Internal(_) => "Internal error: "
    case Unauthorized => "Unauthorized"
    case NotFound(_) => "Not found: "
  }

  /** The payload of a variant; `Unauthorized` has none. */
  function Payload(e: AppError): string {
    match e
    case Database(c) => c
    case Migration(c) => c
    case Validation(m) => m
    case Io(c) => c
    case Internal(m) => m
    case Unauthorized => ""
    case NotFound(m) => m
  }

  /**
   * The `#[error(...)]` format of each variant. The text starts with a label
   * that names the variant and ends with the payload, unaltered.
   */
  function Display(e: AppError): (r: string)
    ensures IsPrefix(Label(e), r)
    ensures r == Label(e) + Payload(e)
    ensures e.Unauthorized? ==> r == "Unauthorized"
  {
    match e
    case Database(c) => "Database error: " + c
    case Migration(c) => "Migration error: " + c
    case Validation(m) => "Validation error: " + m
    case Io(c) => "Io error: " + c
    case Internal(m) => "Internal error: " + m
    case Unauthorized => "Unauthorized"
    case NotFound(m) => "Not found: " + m
  }

  /** The JSON value a serializer receives: either a string or nothing else. */
  datatype Serialized = JsonString(text: string)

  /** `serialize` hands the serializer the Display text as one string. */
  function Serialize(e: AppError): (r: Serialized)
    ensures r.text == Display(e)
  {
    JsonString(Display(e))
  }

  /** The first two characters of the label tell the variants apart. */
  lemma LabelsDistinct(a: AppError, b: AppError)
    requires Label(a)[..2] == Label(b)[..2]
    ensures a.Unauthorized? == b.Unauthorized?
    ensures Label(a) == Label(b)
  {
    assert Label(a)[0] == Label(b)[0] && Label(a)[1] == Label(b)[1];
    match a
    case Database(_) =>
    case Migration(_) =>
    case Validation(_) =>
    case Io(_) =>
    case Internal(_) =>
    case Unauthorized =>
    case NotFound(_) =>
  }

  /**
   * Distinct errors have distinct texts: a front end can tell every error
   * (variant and payload) apart from the string alone.
   */
  lemma DisplayInjective(a: AppError, b: AppError)
    requires Display(a) == Display(b)
    ensures a == b
  {
    var ra, rb := Display(a), Display(b);
    assert ra[..2] == Label(a)[..2];
    assert rb[..2] == Label(b)[..2];
    LabelsDistinct(a, b);
    assert Payload(a) == ra[|Label(a)|..];
    assert Payload(b) == rb[|Label(b)|..];
  }

  /** Serialization loses nothing either. */
  lemma SerializeInjective(a: AppError, b: AppError)
    requires Serialize(a) == Serialize(b)
    ensures a == b
  {
    DisplayInjective(a, b);
  }
}
