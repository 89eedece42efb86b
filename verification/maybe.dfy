/** Python's `None` versus a present value: a missing JSON key, query
    argument or environment variable. */
module Maybe {

  datatype Option<+T> = None | Some(value: T)
}
