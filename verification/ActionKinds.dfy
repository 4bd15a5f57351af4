/** The action kinds, the flag each one sets, and the scope an idempotency key binds to. */
module ActionKinds {
  import opened Wrappers

  datatype Flag = Unread | Flagged

  datatype FlagDesire = FlagDesire(flag: Flag, value: bool)

  datatype ActionKind = MarkRead | MarkUnread | Star | Unstar | Archive | Move

  predicate RequiresDestination(kind: ActionKind) {
    kind.Archive? || kind.Move?
  }

  function FlagDesireOf(kind: ActionKind): Option<FlagDesire> {
    match kind
    case MarkRead => Some(FlagDesire(Unread, false))
    case MarkUnread => Some(FlagDesire(Unread, true))
    case Star => Some(FlagDesire(Flagged, true))
    case Unstar => Some(FlagDesire(Flagged, false))
    case _ => None
  }

  predicate IsReplayableKind(kind: ActionKind) {
    kind in {MarkRead, MarkUnread, Star, Unstar}
  }

  /** A kind replays exactly when it sets a flag, and moves exactly when it does not. */
  lemma KindsPartition(kind: ActionKind)
    ensures IsReplayableKind(kind) <==> FlagDesireOf(kind).Some?
    ensures RequiresDestination(kind) <==> !IsReplayableKind(kind)
  {
  }
}
