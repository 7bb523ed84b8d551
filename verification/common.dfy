/** Small shared vocabulary: optional values, results, and the string and
    list helpers the Python code gets from its standard library
    (`str.startswith`, `str.endswith`, slicing, f-string rendering). */
module Common {

  datatype Option<+T> = None | Some(value: T)

  /** A computation that either produced a value or raised an exception. */
  datatype Result<+T, +E> = Ok(value: T) | Err(error: E)

  /** The exceptions the services raise or let escape. `str(e)` of the
      first four is the message they carry. */
  datatype Exception =
    | FileNotFound(message: string)   // FileNotFoundError
    | ValueError(message: string)     // ValueError raised by this code
    | Raised(message: string)         // any exception a library call raises
    | Undecodable(path: string)       // reading a stored file failed to parse it
    | Invalid(field: string)          // a record failed its schema validation
    | HttpException(status: nat, text: string)

  /** The `detail` of an HTTP error: a fixed text, or a prefix followed by
      `str(e)` of the exception that caused it. */
  datatype Detail = Fixed(text: string) | Because(prefix: string, cause: Exception)

  datatype HttpError = HttpError(status: nat, detail: Detail)

  /** `s.startswith(p)` */
  predicate StartsWith(s: string, p: string) {
    |p| <= |s| && s[..|p|] == p
  }

  /** `s.endswith(x)` */
  predicate EndsWith(s: string, x: string) {
    |x| <= |s| && s[|s| - |x|..] == x
  }

  /** How an f-string renders an `Optional[str]`: `None` becomes the text "None". */
  function Render(t: Option<string>): string {
    match t
    case None => "None"
    case Some(s) => s
  }

  function Min(a: int, b: int): int {
    if a <= b then a else b
  }

  /** Python's `xs[:k]` for any integer `k`: a negative bound counts from the end. */
  function PyPrefix<T>(xs: seq<T>, k: int): (r: seq<T>)
    ensures 0 <= k ==> |r| == Min(k, |xs|)
    ensures k < 0 ==> |r| == if |xs| + k < 0 then 0 else |xs| + k
    ensures r <= xs
  {
    if 0 <= k then
      xs[..Min(k, |xs|)]
    else if |xs| + k < 0 then
      []
    else
      xs[..|xs| + k]
  }

  /** Concatenation puts the prefix in front. */
  lemma StartsWithConcat(p: string, rest: string)
    ensures StartsWith(p + rest, p)
  {
    assert (p + rest)[..|p|] == p;
  }

  /** Concatenation puts the suffix at the end. */
  lemma EndsWithConcat(rest: string, x: string)
    ensures EndsWith(rest + x, x)
  {
    assert (rest + x)[|rest + x| - |x|..] == x;
  }

  /** Two prefixes of one string: the shorter is a prefix of the longer. */
  lemma PrefixesNest(s: string, p: string, q: string)
    requires StartsWith(s, p) && StartsWith(s, q) && |p| <= |q|
    ensures StartsWith(q, p)
  {
    assert q[..|p|] == s[..|q|][..|p|] == s[..|p|];
  }
}
