/** Blob file states and the events that move a file between them. */
module FileStates {

  datatype FileState = Init | Normal | PendingLSM | BeingGC | PendingGC | Obsolete | ToMerge | ToGC

  datatype FileEvent =
    | InitEvent
    | FlushCompleted
    | CompactionCompleted
    | GCCompleted
    | GCBegin
    | GCOutput
    | FlushOrCompactionOutput
    | DbRestart
    | Delete
    | NeedMerge
    | Reset
    | NeedGC

  /** The debug assertions that guard a transition. */
  predicate Allowed(s: FileState, e: FileEvent) {
    match e
    case InitEvent => false
    case FlushCompleted => s in {PendingLSM, PendingGC, Normal, BeingGC, Obsolete}
    case CompactionCompleted => s == PendingLSM
    case GCCompleted => s in {PendingGC, BeingGC, Obsolete}
    case GCBegin => s == Normal
    case GCOutput => s == Init
    case FlushOrCompactionOutput => s == Init
    case DbRestart => s == Init
    case Delete => s != Obsolete
    case NeedMerge => true
    case Reset => true
    case NeedGC => true
  }

  /** The state assigned by a transition; a release build gets here whether or not the assertion holds. */
  function Transit(s: FileState, e: FileEvent): FileState {
    match e
    case InitEvent => s
    case FlushCompleted => if s == PendingLSM then Normal else s
    case CompactionCompleted => Normal
    case GCCompleted => if s == Obsolete then s else Normal
    case GCBegin => BeingGC
    case GCOutput => PendingGC
    case FlushOrCompactionOutput => PendingLSM
    case DbRestart => Normal
    case Delete => Obsolete
    case NeedMerge => if s in {ToGC, Obsolete} then s else ToMerge
    case Reset => Normal
    case NeedGC => if s == Obsolete then s else ToGC
  }
}
