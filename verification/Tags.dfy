/** The tag alphabet shared by the snapshot, hash and blob state machines. */
module Tags {
  import opened Common

  datatype Tag = Done | Reserved | InProgress | Complete | WillDelete | ReadyDelete | DeleteComplete | RecoverInProgress

  function TagToNum(t: Tag): int {
    match t
    case Done => 0
    case Reserved => 1
    case InProgress => 2
    case Complete => 3
    case WillDelete => 4
    case ReadyDelete => 5
    case DeleteComplete => 6
    case RecoverInProgress => 7
  }

  /** Exactly the numbers of the alphabet denote a tag, and each of them its own. */
  function TagFromNum(n: int): (t: Option<Tag>)
    ensures t.Some? <==> 0 <= n < 8
    ensures t.Some? ==> TagToNum(t.value) == n
  {
    match n
    case 0 => Some(Done)
    case 1 => Some(Reserved)
    case 2 => Some(InProgress)
    case 3 => Some(Complete)
    case 4 => Some(WillDelete)
    case 5 => Some(ReadyDelete)
    case 6 => Some(DeleteComplete)
    case 7 => Some(RecoverInProgress)
    case _ => None
  }

  datatype WorkStatus = CommitInProgress | CommitComplete | DeleteInProgress | DeleteDone | Recovering

  function TagToWorkStatus(t: Tag): WorkStatus {
    match t
    case Reserved | InProgress => CommitInProgress
    case Complete | Done => CommitComplete
    case WillDelete => DeleteInProgress
    case ReadyDelete | DeleteComplete => DeleteDone
    case RecoverInProgress => Recovering
  }
}
