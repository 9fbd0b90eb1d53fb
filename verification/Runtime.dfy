/** Values shared by the application runtime. */
module Runtime {

  datatype ErrorCode =
    | InvalidArgument | FileExists | NotPermitted | StateNotRecoverable
    | NoSuchFile | DependencyCycle | TimedOut | Canceled | IoError

  datatype Result<+T> = Ok(value: T) | Err(error: ErrorCode)

  datatype Option<+T> = None | Some(value: T)

  type Byte = x: int | 0 <= x < 256

  /** Identity of a managed service: integration type and instance name. */
  datatype ServiceKey = ServiceKey(name: string, instance: string) {
    function CanonicalName(): string { name + ":" + instance }
  }

  datatype Requirement = Required | Optional

  /** An absolute time limit; `Unlimited` never expires. */
  datatype Deadline = Unlimited | At(time: int) {
    predicate Expired(now: int) { At? && now >= time }

    /** A child budget can never outlive its parent. */
    function Constrain(child: Deadline): Deadline {
      if Unlimited? then child
      else if child.Unlimited? || child.time > time then this
      else child
    }

    /** Time left, nothing once the limit has passed. */
    function Remaining(now: int): (r: Option<nat>)
      ensures r.Some? && !Expired(now) ==> r.value > 0
    {
      if Unlimited? then None
      else if now >= time then Some(0) else Some(time - now)
    }

    ghost predicate NoLaterThan(other: Deadline) {
      other.Unlimited? || (At? && time <= other.time)
    }
  }

  lemma {:induction false} ConstrainIsMeet(parent: Deadline, child: Deadline, now: int)
    ensures parent.Constrain(child).NoLaterThan(parent) && parent.Constrain(child).NoLaterThan(child)
    ensures parent.Constrain(child).Expired(now) <==> parent.Expired(now) || child.Expired(now)
  {
  }

  /** Longest representable scheduling duration in milliseconds: half of a 64-bit nanosecond count. */
  const HORIZON: int := 4611686018427

  /** Exponential backoff, jitter and total recovery budget; durations in milliseconds. */
  datatype RecoveryPolicy = RecoveryPolicy(
    initialDelay: int, maximumDelay: int, budget: int, multiplier: real, jitter: real)
  {
    predicate Valid() {
      && initialDelay > 0
      && initialDelay <= maximumDelay <= HORIZON
      && 0 <= budget <= HORIZON
      && multiplier >= 1.0
      && 0.0 <= jitter <= 1.0
    }
  }
}
