/** Values shared by every part of the model: the outcome of an operation
    that may raise, and the two kinds of value the handlers store in a tag
    dictionary (OSM tag text, and the integer id the handlers add). */
module Values {

  datatype Option<+T> = None | Some(value: T)

  /** The Python exceptions the modelled code can raise. */
  datatype Error =
    | IndexError    // a list index past the end
    | KeyError      // a missing dictionary key
    | ValueError    // an argument outside the accepted values
    | TypeError     // an operation applied to a value of the wrong type
    | AttributeError  // a method called on None

  datatype Result<+T> = Ok(value: T) | Err(error: Error)

  /** A value stored in a tag dictionary: OSM tag values are text, the
      `id` entry the handlers add is the element's integer id. */
  datatype Val = Text(s: string) | Id(n: int)

  /** Python truthiness of an optional string: `None` and `''` are false. */
  predicate Truthy(o: Option<string>) {
    o.Some? && o.value != ""
  }

  /** The prefix one element longer, cut back, is the shorter prefix. */
  lemma PrefixStep<T>(s: seq<T>, i: nat)
    requires i < |s|
    ensures s[..i + 1][..i] == s[..i]
  {
  }

  /** The prefix as long as the sequence is the whole sequence. */
  lemma PrefixAll<T>(s: seq<T>)
    ensures s[..|s|] == s
  {
  }
}
