/**
 * The remote-value wrapper: an immutable record describing a value that is
 * fetched from elsewhere, with its fetch flags and last error.
 */
module RemoteValues {
  import opened Wrappers

  datatype RemoteValue<V> = RemoteValue(
    isFetching: bool,
    didInvalidate: bool,
    didEverLoad: bool,
    value: Option<V>,
    error: string)

  /** `new RemoteValue()`: `defaultRemoteProps`. */
  function Default<V>(): (r: RemoteValue<V>)
    ensures !r.isFetching && !r.didInvalidate && !r.didEverLoad
    ensures r.value.None? && r.error == ""
  {
    RemoteValue(false, false, false, None, "")
  }

  /**
   * `loaded()` exactly as written: not fetching, never loaded and no error.
   * The `!didEverLoad` conjunct contradicts the wrapper's own tests and the
   * render gate; see `LoadedAsIntended`.
   */
  predicate Loaded<V>(r: RemoteValue<V>)
  {
    !r.isFetching && !r.didEverLoad && r.error == ""
  }

  /** The evident intent: not fetching, loaded at least once, no error. */
  predicate LoadedAsIntended<V>(r: RemoteValue<V>)
  {
    !r.isFetching && r.didEverLoad && r.error == ""
  }

  lemma NotLoadedWhileFetching<V>(r: RemoteValue<V>)
    requires r.isFetching
    ensures !Loaded(r) && !LoadedAsIntended(r)
  {
  }

  lemma NotLoadedOnError<V>(r: RemoteValue<V>)
    requires r.error != ""
    ensures !Loaded(r) && !LoadedAsIntended(r)
  {
  }

  /** As written, a record that did load is never reported as loaded. */
  lemma EverLoadedIsNeverLoaded<V>(r: RemoteValue<V>)
    requires r.didEverLoad
    ensures !Loaded(r)
  {
  }

  /** As written, the fresh default record, which has loaded nothing, counts as loaded. */
  lemma FreshRecordIsLoaded<V>()
    ensures Loaded(Default<V>())
    ensures !LoadedAsIntended(Default<V>())
  {
  }

  /**
   * The record of the wrapper's "is loaded" test (not fetching, did load,
   * not invalidated, a value, no error): `loaded()` as written answers
   * false, the intended predicate answers true.
   */
  lemma LoadedRecordRejected(v: string)
    ensures !Loaded(RemoteValue(false, false, true, Some(v), ""))
    ensures LoadedAsIntended(RemoteValue(false, false, true, Some(v), ""))
  {
  }

  /** The two predicates never agree on "loaded": the written one is the intended one with `didEverLoad` negated. */
  lemma LoadedNegatesEverLoaded<V>(r: RemoteValue<V>)
    ensures Loaded(r) <==> LoadedAsIntended(r.(didEverLoad := !r.didEverLoad))
    ensures !(Loaded(r) && LoadedAsIntended(r))
  {
  }
}
