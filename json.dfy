/** JSON text of a structured value, kept abstract.

    The application stores section lists, requirement lists and tag lists as
    JSON text and turns them back into values with `JSON.parse`. Rather than
    re-implement JSON, a text is either the encoding `JSON.stringify` produces
    for some value, or some other text that does not decode to a value of that
    shape (invalid JSON, or JSON of another shape, such as an object). */
module Json {
  import opened Wrappers

  datatype Encoded<T> = Encoding(value: T) | Other(raw: string)

  /** `JSON.stringify(v)`. */
  function Stringify<T>(v: T): (e: Encoded<T>)
    ensures Parse(e) == Some(v)
  {
    Encoding(v)
  }

  /** `JSON.parse(e)` read as a `T`: `None` when it throws or yields another shape. */
  function Parse<T>(e: Encoded<T>): (r: Option<T>)
    ensures r.Some? <==> e.Encoding?
  {
    match e
    case Encoding(v) => Some(v)
    case Other(_) => None
  }

  /** Parsing is the inverse of stringifying, in both directions. */
  lemma ParseStringify<T>(e: Encoded<T>)
    requires Parse(e).Some?
    ensures Stringify(Parse(e).value) == e
  {
  }
}
