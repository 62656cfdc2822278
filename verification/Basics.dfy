/** Datatypes shared by every component of the model. */
module Basics {
  datatype Option<+T> = None | Some(value: T) {
    function GetOr(other: T): T { if Some? then value else other }
  }

  /** What one file operation did.  A failing operation may have failed before
      or after its effect reached the disk: a rename that worked followed by a
      directory sync that did not reports an error all the same. */
  datatype Fate = Done | FailedBefore | FailedAfter {
    predicate Effective() { !FailedBefore? }
  }
}
