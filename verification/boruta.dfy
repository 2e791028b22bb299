/**
 Entities shared by every component of the device farm: requests, workers, jobs and times.
 */
module Boruta {

  datatype Option<+T> = None | Some(value: T)

  /** Points in time, in nanoseconds. The zero value stands for an unset time. */
  type Time = int

  const ZERO_TIME: Time := 0
  const HOUR: Time := 3_600_000_000_000

  type ReqID = nat
  type WorkerUUID = string
  type Group = string
  type Capabilities = map<string, string>

  /** The capability under which a worker announces its identity. */
  const UUID_CAP := "UUID"

  /** Priorities are bytes; a smaller value is more important and 0 means "not given". */
  type Priority = p: int | 0 <= p < 256 witness 0

  const HI_PRIO: Priority := 1
  const LO_PRIO: Priority := 16

  datatype ReqState = WAIT | INPROGRESS | CANCEL | TIMEOUT | INVALID | DONE | FAILED

  datatype WorkerState = MAINTENANCE | IDLE | RUN | FAIL | PREPARE | BUSY

  datatype JobInfo = JobInfo(worker: WorkerUUID, timeout: Time)

  datatype ReqInfo = ReqInfo(
    id: ReqID,
    priority: Priority,
    groups: seq<Group>,
    deadline: Time,
    validAfter: Time,
    state: ReqState,
    job: Option<JobInfo>,
    caps: Capabilities)

  datatype WorkerInfo = WorkerInfo(uuid: WorkerUUID, state: WorkerState, groups: seq<Group>, caps: Capabilities)

  /** Private keys are opaque values. */
  type Key = nat

  datatype Addr = Addr(ip: string, port: nat)

  /** A running job: the request it serves and the access data handed to the request's owner. */
  datatype Job = Job(req: ReqID, addr: Addr, key: Key)

  datatype RequestTime = RequestTime(time: Time, req: ReqID)

  datatype Error =
    | NoError
    | NotFound
    | MissingUUID
    | InMaintenance
    | NotInFailOrMaintenance
    | WrongStateArgument
    | ForbiddenStateChange
    | NoMatchingWorker
    | JobAlreadyExists
    | TunnelFailed
    | PriorityOutOfBounds
    | InvalidTimeRange
    | DeadlineInThePast
    | WorkerNotAssigned
    | ModificationForbidden
    | InternalLogicError
    | WrongSortItem
}

/**
 The order Go uses on strings: the first differing character decides, a proper prefix comes first.
 */
module Lexicographic {

  predicate StringLess(a: string, b: string)
  {
    if b == [] then false
    else if a == [] then true
    else a[0] < b[0] || (a[0] == b[0] && StringLess(a[1..], b[1..]))
  }

  /** The first place where they differ decides; up to there they are equal, and one that ends there is less. */
  lemma {:induction false} FirstDifferenceDecides(a: string, b: string)
    ensures StringLess(a, b) <==>
            exists i :: 0 <= i <= |a| && i < |b| && a[..i] == b[..i] && (i < |a| ==> a[i] < b[i])
  {
    if b != [] && a != [] {
      FirstDifferenceDecides(a[1..], b[1..]);
      if a[0] < b[0] {
        assert a[..0] == b[..0];
      } else if StringLess(a, b) {
        var i :| 0 <= i <= |a[1..]| && i < |b[1..]| && a[1..][..i] == b[1..][..i]
                 && (i < |a[1..]| ==> a[1..][i] < b[1..][i]);
        assert a[..i + 1] == [a[0]] + a[1..][..i] && b[..i + 1] == [b[0]] + b[1..][..i];
      }
      forall i | 0 < i <= |a| && i < |b| && a[..i] == b[..i] && (i < |a| ==> a[i] < b[i])
        ensures StringLess(a, b)
      {
        assert a[0] == a[..i][0] && b[0] == b[..i][0];
        assert a[1..][..i - 1] == a[..i][1..] && b[1..][..i - 1] == b[..i][1..];
      }
    } else if b != [] {
      assert a[..0] == b[..0];
    }
  }

  /** Exactly one of: less, equal, greater. */
  lemma {:induction false} StringTrichotomy(a: string, b: string)
    ensures a == b ==> !StringLess(a, b)
    ensures a != b ==> (StringLess(a, b) <==> !StringLess(b, a))
  {
    if a != [] && b != [] {
      StringTrichotomy(a[1..], b[1..]);
      assert a == [a[0]] + a[1..] && b == [b[0]] + b[1..];
    }
  }

  lemma {:induction false} StringTransitive(a: string, b: string, c: string)
    requires StringLess(a, b) && StringLess(b, c)
    ensures StringLess(a, c)
  {
    if a != [] && a[0] == b[0] == c[0] {
      StringTransitive(a[1..], b[1..], c[1..]);
    }
  }
}
