/** Shared value types of the application (types.ts) and the two JavaScript
    conventions every other module relies on: a nullable value is an Option,
    and a nullable string counts as present only when it is non-empty. */
module Types {

  /** A nullable value (`T | null` or an optional property). */
  datatype Option<+T> = None | Some(value: T)

  /** A computation that either returns a value or throws an error message. */
  datatype Result<+T> = Success(value: T) | Failure(error: string)

  /** The three generation modes of the form. */
  datatype GenerationType = Wedding | Baby | Location

  /** The runtime value of each enum member: a TypeScript string enum is a string. */
  function Tag(t: GenerationType): (s: string)
    ensures s != ""
  {
    match t
    case Wedding => "WEDDING"
    case Baby => "BABY"
    case Location => "LOCATION"
  }

  /** An uploaded photo: the base64 body of its data URL and its declared media type. */
  datatype ImageFile = ImageFile(base64: string, mimeType: string)

  /** JavaScript truthiness of a `string | null`: null and "" are both falsy. */
  predicate Truthy(s: Option<string>)
  {
    s.Some? && s.value != ""
  }
}
