/** Optional values: the model's stand-in for Go's nil pointers, nil
    function values and "not found" lookups. */
module Optional {

  datatype Option<T> = None | Some(value: T)
}
