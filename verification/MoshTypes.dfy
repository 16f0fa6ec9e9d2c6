/** The values the mosh client passes around, shared by the modules about it. */
module MoshTypes {

  datatype Option<+T> = None | Some(value: T)

  type Byte = x: int | 0 <= x < 256
  type Bytes = seq<Byte>

  const U64: int := 0x1_0000_0000_0000_0000

  /** The state number that ends a session. */
  const SHUTDOWN: nat := U64 - 1

  /** The parent of a received state that is a whole screen of its own. */
  const NO_PARENT: nat := U64 - 2

  /** A deadline or clock that is not set. */
  const NEVER: nat := U64 - 1

  /** Typed keys, or with columns > 0 a resize. */
  datatype UserEvent = UserEvent(keys: Bytes, columns: nat, rows: nat)

  /** Events are counted from the start of the session. */
  datatype SentState = SentState(num: nat, events: nat, timestamp: nat)

  /** What one instruction to the server says; diff stands for the user message the events are coded in. */
  datatype Instruction = Instruction(oldNum: nat, newNum: nat, ackNum: nat, throwawayNum: nat,
                                     diff: seq<UserEvent>)

  datatype ReceivedState = ReceivedState(num: nat, parent: nat, diff: Bytes, columns: nat, rows: nat,
                                         scrollIndex: nat)

  /** One journal record, by its type byte: A, N, Q, M, F, S, L, B, E and T. */
  datatype Record =
    | Address(address: Bytes)
    | Note(note: Bytes)
    | SeqReserved(seqReserved: nat)
    | StateReserved(stateReserved: nat)
    | Front(front: nat)
    | Screen(state: ReceivedState)
    | Latest(latest: nat)
    | Base(base: nat)
    | Typed(index: nat, event: UserEvent)
    | Sent(num: nat, events: nat)

  function Max(a: int, b: int): int { if a >= b then a else b }

  function Min(a: int, b: int): int { if a <= b then a else b }

  function Last<T>(s: seq<T>): T
    requires s != []
  {
    s[|s| - 1]
  }

  /** The value of the source's unsigned 64-bit sum. */
  function Wrap(x: int): nat { x % U64 }
}
