/** The values every part of the runtime shares: content addresses, tasks, priorities. */
module Core {

  datatype Option<+T> = None | Some(value: T)

  datatype Result<+T, +E> = Ok(value: T) | Err(error: E)

  newtype byte = b: int | 0 <= b < 256

  /** A content address. The hash behind it is taken to be collision free, so an
      address is represented by the very bytes it was computed from. */
  datatype DataId = DataId(content: seq<byte>)

  function IdOf(bytes: seq<byte>): DataId {
    DataId(bytes)
  }

  /** Background = 0, Low = 1, Normal = 2, High = 3, Critical = 4. */
  type Priority = p: int | 0 <= p <= 4

  const CRITICAL: Priority := 4

  function Promoted(p: Priority): Priority {
    if p < CRITICAL then p + 1 else CRITICAL
  }

  datatype Task = Task(
    id: nat,
    kind: string,
    payload: seq<byte>,
    inputs: seq<DataId>,
    priority: Priority,
    moduleId: Option<DataId>)

  // ---- Sets ----

  /** The numbers below `n`. */
  function Below(n: nat): (r: set<nat>)
    ensures |r| == n && forall x :: x in r <==> 0 <= x < n
  {
    if n == 0 then {} else Below(n - 1) + {n - 1}
  }

  lemma {:induction false} SubsetSize<T>(a: set<T>, b: set<T>)
    requires a <= b
    ensures |a| <= |b|
    ensures |a| == |b| ==> a == b
  {
    assert b == a + (b - a);
    assert |b| == |a| + |b - a|;
  }
}
