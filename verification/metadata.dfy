/**
 `loadInconsistentMetaDataObjects`: after the metadata reload it sends the
 user to the metadata status page when the server reports inconsistencies.
 */
module Metadata {
  import opened Navigation

  /** `store.getState().metadata` after the load. `inconsistentInheritedRoles`
      may be absent, and then counts as empty (optional chaining). */
  datatype MetadataState = MetadataState(
    inconsistentObjects: seq<string>,
    inconsistentInheritedRoles: Option<seq<string>>)

  /** How `loadInconsistentObjects(...)` settles. The source attaches no
      rejection handler. */
  datatype MetadataLoad = MetadataLoaded(state: MetadataState) | MetadataLoadRejected

  predicate HasInconsistencies(m: MetadataState) {
    || |m.inconsistentObjects| > 0
    || (m.inconsistentInheritedRoles.Some? && |m.inconsistentInheritedRoles.value| > 0)
  }

  /** `loadInconsistentMetaDataObjects`, with `isMetadataStatusPage()` as
      `onStatusPage`. */
  function LoadInconsistentMetaDataObjects(load: MetadataLoad, onStatusPage: bool): (e: Effect)
    ensures e.alert.None?
    ensures e.cbCalls == (if load.MetadataLoaded? then 1 else 0)
    ensures e.redirects == [] || e.redirects == [ToMetadataStatus]
    ensures e.redirects == [ToMetadataStatus] <==>
              load.MetadataLoaded? && HasInconsistencies(load.state) && !onStatusPage
  {
    match load
    case MetadataLoadRejected => NoEffect()
    case MetadataLoaded(m) =>
      if HasInconsistencies(m) && !onStatusPage then Effect([ToMetadataStatus], 1, None)
      else Continue()
  }

  /** Optional chaining: an absent `inconsistentInheritedRoles` behaves as
      an empty list. */
  lemma AbsentRolesActAsEmpty(objects: seq<string>, onStatusPage: bool)
    ensures LoadInconsistentMetaDataObjects(MetadataLoaded(MetadataState(objects, None)), onStatusPage)
            == LoadInconsistentMetaDataObjects(MetadataLoaded(MetadataState(objects, Some([]))), onStatusPage)
  {
  }

  /** Without inconsistencies the current page is irrelevant: the guard only
      continues. */
  lemma ConsistentIgnoresPage(m: MetadataState, onStatusPage: bool)
    requires !HasInconsistencies(m)
    ensures LoadInconsistentMetaDataObjects(MetadataLoaded(m), onStatusPage)
            == LoadInconsistentMetaDataObjects(MetadataLoaded(m), !onStatusPage)
    ensures LoadInconsistentMetaDataObjects(MetadataLoaded(m), onStatusPage) == Continue()
  {
  }

  /** The redirect settles: on the status page the guard only continues. */
  lemma StatusPageIsFixpoint(m: MetadataState)
    ensures LoadInconsistentMetaDataObjects(MetadataLoaded(m), true) == Continue()
  {
  }
}
