/** UID arithmetic: the resume watermark, and synthetic numbering for archives. */
module Uids {
  import opened Prelude

  type Uid = nat

  /** One past the highest UID processed, clamped to a UID held back: the
      greatest watermark that passes neither. */
  function CheckpointUidnext(highestSeen: int, holdAt: Option<Uid>): (r: int)
    ensures r <= highestSeen + 1 && (holdAt.Some? ==> r <= holdAt.value)
    ensures r == highestSeen + 1 || holdAt == Some(r)
  {
    var resume := highestSeen + 1;
    match holdAt
    case None => resume
    case Some(h) => Min(resume, h)
  }

  datatype AuthMethod = Archive | Live(name: string)

  /** Only synthetic UIDs, those of an archive account, may be renumbered. */
  predicate ShouldReallocateUid(auth: AuthMethod) {
    auth.Archive?
  }

  function NextUidAfter(maxUid: Option<Uid>): Uid {
    match maxUid
    case None => 1
    case Some(m) => m + 1
  }
}
