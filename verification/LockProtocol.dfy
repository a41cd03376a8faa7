/** The compositor's side of ext-session-lock-v1, as a judge of the messages on one lock connection.
    `Legal` is false exactly where the protocol raises an error: `duplicate_output`, `invalid_unlock`,
    `commit_before_first_ack`, `dimensions_mismatch`, or any use of what no longer exists. */
module LockProtocol {
  import opened Words

  type OutputId = nat
  type SurfaceId = nat

  datatype Size = Size(width: U32, height: U32)

  /** `streamed` is not on the wire: it records whether the pixels came from the kiosk socket. */
  datatype Message =
    | LockRequest
    | LockConfirmed
    | CreateLockSurface(surface: SurfaceId, output: OutputId)
    | AckConfigure(surface: SurfaceId, size: Size)
    | Commit(surface: SurfaceId, size: Size, pixels: seq<Byte>, streamed: bool)
    | DestroyLockSurface(surface: SurfaceId)
    | UnlockAndDestroy

  datatype View = View(requested: bool, confirmed: bool, unlocked: bool,
                       live: map<SurfaceId, OutputId>, acked: map<SurfaceId, Size>)

  const NOTHING := View(false, false, false, map[], map[])

  predicate Legal(v: View, m: Message) {
    && !v.unlocked
    && match m
       case LockRequest => !v.requested
       case LockConfirmed => v.requested && !v.confirmed
       case CreateLockSurface(s, o) => v.requested && s !in v.live && o !in v.live.Values
       case AckConfigure(s, _) => s in v.live
       case Commit(s, size, pixels, _) =>
         s in v.live && s in v.acked && v.acked[s] == size && |pixels| == size.width * size.height * 4
       case DestroyLockSurface(s) => s in v.live
       case UnlockAndDestroy => v.confirmed
  }

  function Judge(v: View, m: Message): View {
    match m
    case LockRequest => v.(requested := true)
    case LockConfirmed => v.(confirmed := true)
    case CreateLockSurface(s, o) => v.(live := v.live[s := o], acked := v.acked - {s})
    case AckConfigure(s, size) => v.(acked := v.acked[s := size])
    case Commit(_, _, _, _) => v
    case DestroyLockSurface(s) => v.(live := v.live - {s})
    case UnlockAndDestroy => v.(unlocked := true)
  }

  /** What the compositor knows after a history of messages. */
  function After(traffic: seq<Message>): View {
    if traffic == [] then NOTHING else Judge(After(traffic[..|traffic| - 1]), traffic[|traffic| - 1])
  }

  /** No message of the history raised a protocol error. */
  predicate Conforms(traffic: seq<Message>) {
    traffic == [] || (Conforms(traffic[..|traffic| - 1])
                      && Legal(After(traffic[..|traffic| - 1]), traffic[|traffic| - 1]))
  }

  lemma AfterMore(traffic: seq<Message>, m: Message)
    ensures After(traffic + [m]) == Judge(After(traffic), m)
    ensures Conforms(traffic + [m]) <==> Conforms(traffic) && Legal(After(traffic), m)
  {
    assert (traffic + [m])[..|traffic|] == traffic;
  }

  /** The size a surface was last configured to, if it was at all since it was created. */
  function LastConfigured(traffic: seq<Message>, s: SurfaceId): Option<Size> {
    if traffic == [] then None
    else
      match traffic[|traffic| - 1]
      case AckConfigure(t, size) => if t == s then Some(size) else LastConfigured(traffic[..|traffic| - 1], s)
      case CreateLockSurface(t, _) => if t == s then None else LastConfigured(traffic[..|traffic| - 1], s)
      case _ => LastConfigured(traffic[..|traffic| - 1], s)
  }

  lemma {:induction false} AckedIsLastConfigured(traffic: seq<Message>, s: SurfaceId)
    ensures LastConfigured(traffic, s) == if s in After(traffic).acked then Some(After(traffic).acked[s]) else None
  {
    if traffic != [] {
      AckedIsLastConfigured(traffic[..|traffic| - 1], s);
    }
  }

  lemma {:induction false} ConformsToPrefix(traffic: seq<Message>, i: nat)
    requires Conforms(traffic) && i <= |traffic|
    ensures Conforms(traffic[..i])
  {
    if i < |traffic| {
      ConformsToPrefix(traffic[..|traffic| - 1], i);
      assert traffic[..|traffic| - 1][..i] == traffic[..i];
    } else {
      assert traffic[..i] == traffic;
    }
  }

  /** In a conforming history every commit carries exactly the pixels of the size its surface was last
      configured to, and there was such a configure. */
  lemma CommitsFitTheirSurface(traffic: seq<Message>, i: nat)
    requires Conforms(traffic) && i < |traffic| && traffic[i].Commit?
    ensures LastConfigured(traffic[..i], traffic[i].surface) == Some(traffic[i].size)
    ensures |traffic[i].pixels| == traffic[i].size.width * traffic[i].size.height * 4
  {
    ConformsToPrefix(traffic, i + 1);
    assert traffic[..i + 1][..i] == traffic[..i];
    AckedIsLastConfigured(traffic[..i], traffic[i].surface);
  }

  lemma {:induction false} UnlockedIsLast(traffic: seq<Message>, i: nat)
    requires Conforms(traffic) && i < |traffic| && traffic[i] == UnlockAndDestroy
    ensures i == |traffic| - 1 && After(traffic).unlocked
  {
    if i < |traffic| - 1 {
      UnlockedIsLast(traffic[..|traffic| - 1], i);
      assert false;
    }
  }

  lemma {:induction false} ConfirmedMeansMessage(traffic: seq<Message>)
    ensures After(traffic).confirmed <==> LockConfirmed in traffic
    ensures After(traffic).requested <==> LockRequest in traffic
    ensures After(traffic).unlocked <==> UnlockAndDestroy in traffic
  {
    if traffic != [] {
      ConfirmedMeansMessage(traffic[..|traffic| - 1]);
      assert traffic == traffic[..|traffic| - 1] + [traffic[|traffic| - 1]];
    }
  }

  /** In a conforming history the unlock is sent at most once, as the last message, and after the lock
      was confirmed. */
  lemma OneUnlockAfterConfirmation(traffic: seq<Message>, i: nat)
    requires Conforms(traffic) && i < |traffic| && traffic[i] == UnlockAndDestroy
    ensures i == |traffic| - 1 && LockConfirmed in traffic[..i]
    ensures forall j :: 0 <= j < |traffic| && traffic[j] == UnlockAndDestroy ==> j == i
  {
    UnlockedIsLast(traffic, i);
    ConfirmedMeansMessage(traffic[..i]);
  }
}
