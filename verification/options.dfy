/** The outcome of decoding a model response as JSON: a decoded value, or
    nothing when the text is not valid JSON. */
module Options {
  datatype Option<T> = None | Some(value: T)
}
