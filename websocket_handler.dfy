/**
  `KafkaWebSocketHandler`: the registry of live WebSocket sessions (a
  `CopyOnWriteArraySet`, modelled as a duplicate-free sequence in insertion
  order) and `listen`, which pushes every relayed envelope to the open
  sessions.
*/
module WebSocket {
  import opened Base
  import opened Payload

  // ---------------------------------------------------------------------
  // The registry as a value: insertion-ordered, duplicate-free
  // ---------------------------------------------------------------------

  predicate NoDuplicates<T(==)>(s: seq<T>) {
    forall i, j :: 0 <= i < j < |s| ==> s[i] != s[j]
  }

  /** `CopyOnWriteArraySet.add`: append unless already present. */
  function Added<T(==)>(s: seq<T>, x: T): (r: seq<T>)
    ensures |s| <= |r| <= |s| + 1 && r[..|s|] == s
    ensures x in r && forall i :: |s| <= i < |r| ==> r[i] == x
  {
    if x in s then s else s + [x]
  }

  /** `CopyOnWriteArraySet.remove`: drop the first occurrence, if any. */
  function Removed<T(==)>(s: seq<T>, x: T): (r: seq<T>)
    ensures forall i :: 0 <= i < |r| ==> r[i] in s
    ensures |r| == if x in s then |s| - 1 else |s|
  {
    if s == [] then []
    else if s[0] == x then s[1..]
    else [s[0]] + Removed(s[1..], x)
  }

  /** Connecting a known session changes nothing; a new one goes last. */
  lemma AddedSpec<T>(s: seq<T>, x: T)
    ensures x in s ==> Added(s, x) == s
    ensures x !in s ==> Added(s, x) == s + [x]
    ensures x in Added(s, x)
    ensures NoDuplicates(s) ==> NoDuplicates(Added(s, x))
  {
  }

  /** Removing an absent session is a no-op. */
  lemma {:induction false} RemovedAbsent<T>(s: seq<T>, x: T)
    requires x !in s
    ensures Removed(s, x) == s
  {
    if s != [] {
      assert s[0] != x;
      assert x !in s[1..];
      RemovedAbsent(s[1..], x);
      assert s == [s[0]] + s[1..];
    }
  }

  /** The tail of a duplicate-free registry is duplicate-free and lacks its head. */
  lemma TailNoDuplicates<T>(s: seq<T>)
    requires NoDuplicates(s) && s != []
    ensures NoDuplicates(s[1..]) && s[0] !in s[1..]
  {
    var t := s[1..];
    forall a, b | 0 <= a < b < |t| ensures t[a] != t[b] {
      assert t[a] == s[a + 1] && t[b] == s[b + 1];
    }
    forall k | 0 <= k < |t| ensures t[k] != s[0] { assert t[k] == s[k + 1]; }
  }

  /** Removing the session at position `i` cuts out exactly that position, keeping the order of the rest. */
  lemma {:induction false} RemovedAt<T>(s: seq<T>, i: nat)
    requires NoDuplicates(s) && i < |s|
    ensures Removed(s, s[i]) == s[..i] + s[i + 1..]
  {
    if i > 0 {
      var t := s[1..];
      assert s[0] != s[i] && t[i - 1] == s[i];
      TailNoDuplicates(s);
      RemovedAt(t, i - 1);
      var r := t[..i - 1] + t[i..];
      assert Removed(s, s[i]) == [s[0]] + r;
      assert s[..i] == [s[0]] + t[..i - 1];
      assert s[i + 1..] == t[i..];
    }
  }

  /** Removal keeps the registry duplicate-free and takes out exactly the given session. */
  lemma {:induction false} RemovedMembers<T>(s: seq<T>, x: T)
    requires NoDuplicates(s)
    ensures NoDuplicates(Removed(s, x))
    ensures forall y :: y in Removed(s, x) <==> y in s && y != x
  {
    if s != [] {
      var t := s[1..];
      TailNoDuplicates(s);
      assert forall y :: y in s <==> y == s[0] || y in t by {
        assert s == [s[0]] + t;
      }
      if s[0] != x {
        RemovedMembers(t, x);
        var r := Removed(t, x);
        assert Removed(s, x) == [s[0]] + r;
        assert NoDuplicates([s[0]] + r) by {
          forall a, b | 0 <= a < b < |[s[0]] + r| ensures ([s[0]] + r)[a] != ([s[0]] + r)[b] {
            if a == 0 {
              assert ([s[0]] + r)[b] == r[b - 1];
            } else {
              assert ([s[0]] + r)[a] == r[a - 1] && ([s[0]] + r)[b] == r[b - 1];
            }
          }
        }
      }
    }
  }

  /** A connection-lifecycle event delivered to the handler. */
  datatype Lifecycle<T> = Established(session: T) | Closed(session: T)

  function Step<T(==)>(s: seq<T>, e: Lifecycle<T>): seq<T> {
    match e
    case Established(x) => Added(s, x)
    case Closed(x) => Removed(s, x)
  }

  /** The registry after a sequence of connects and disconnects. */
  function Replay<T(==)>(s: seq<T>, events: seq<Lifecycle<T>>): seq<T>
    decreases |events|
  {
    if events == [] then s else Replay(Step(s, events[0]), events[1..])
  }

  /** No sequence of connects and disconnects puts a session in the registry twice. */
  lemma {:induction false} ReplayKeepsNoDuplicates<T>(s: seq<T>, events: seq<Lifecycle<T>>)
    requires NoDuplicates(s)
    ensures NoDuplicates(Replay(s, events))
    decreases |events|
  {
    if events != [] {
      match events[0] {
        case Established(x) => AddedSpec(s, x);
        case Closed(x) => RemovedMembers(s, x);
      }
      ReplayKeepsNoDuplicates(Step(s, events[0]), events[1..]);
    }
  }

  // ---------------------------------------------------------------------
  // Fan-out as a value: who receives the frame
  // ---------------------------------------------------------------------

  /**
    Given, for each session of the snapshot in iteration order, whether it is
    open and whether a send to it throws, which sessions receive the frame.
    The first throwing send ends the whole loop, because the `try` is around it.
  */
  function Delivered(open: seq<bool>, fails: seq<bool>): (d: seq<bool>)
    requires |open| == |fails|
    ensures |d| == |open|
    ensures forall i :: 0 <= i < |d| && d[i] ==> open[i] && !fails[i]
  {
    if open == [] then []
    else if open[0] && fails[0] then seq(|open|, _ => false)
    else [open[0]] + Delivered(open[1..], fails[1..])
  }

  /** Before the first failing send, exactly the open sessions receive the frame. */
  lemma {:induction false} DeliveredBeforeFailure(open: seq<bool>, fails: seq<bool>, k: nat)
    requires |open| == |fails| && k <= |open|
    requires forall j :: 0 <= j < k ==> !(open[j] && fails[j])
    ensures forall j :: 0 <= j < k ==> Delivered(open, fails)[j] == open[j]
  {
    if k > 0 {
      assert !(open[0] && fails[0]);
      DeliveredBeforeFailure(open[1..], fails[1..], k - 1);
      var d := Delivered(open, fails);
      assert d == [open[0]] + Delivered(open[1..], fails[1..]);
      forall j | 0 <= j < k ensures d[j] == open[j] {
        if j > 0 { assert d[j] == Delivered(open[1..], fails[1..])[j - 1]; }
      }
    }
  }

  /** If every send succeeds, each open session gets the frame and no closed one does. */
  lemma {:induction false} DeliveredAllSucceed(open: seq<bool>, fails: seq<bool>)
    requires |open| == |fails|
    requires forall j :: 0 <= j < |open| ==> !(open[j] && fails[j])
    ensures Delivered(open, fails) == open
  {
    DeliveredBeforeFailure(open, fails, |open|);
  }

  /** From the first failing send on (inclusive), no session receives the frame. */
  lemma {:induction false} DeliveredStopsAtFailure(open: seq<bool>, fails: seq<bool>, k: nat)
    requires |open| == |fails| && k < |open|
    requires open[k] && fails[k]
    requires forall j :: 0 <= j < k ==> !(open[j] && fails[j])
    ensures forall j :: k <= j < |open| ==> !Delivered(open, fails)[j]
  {
    if k > 0 {
      assert !(open[0] && fails[0]);
      DeliveredStopsAtFailure(open[1..], fails[1..], k - 1);
      var d := Delivered(open, fails);
      assert d == [open[0]] + Delivered(open[1..], fails[1..]);
      forall j | k <= j < |open| ensures !d[j] {
        assert d[j] == Delivered(open[1..], fails[1..])[j - 1];
      }
    }
  }

  // ---------------------------------------------------------------------
  // The objects
  // ---------------------------------------------------------------------

  /**
    A `WebSocketSession`: its open state belongs to the transport, and
    `received` is the log of text frames delivered to the client.
  */
  class Session {
    var open: bool
    var received: seq<string>

    constructor ()
      ensures open && received == []
    {
      open := true;
      received := [];
    }

    /**
      The transport closes the connection (the client leaves, or the
      connection drops). The handler never calls this; it only observes
      `open`, and learns of the close through `afterConnectionClosed`.
    */
    method Close()
      modifies this
      ensures !open && received == old(received)
    {
      open := false;
    }

    /** `sendMessage(new TextMessage(frame))`; `fails` says whether the transport throws. */
    method SendMessage(frame: string, fails: bool) returns (threw: bool)
      modifies this
      ensures threw == fails && open == old(open)
      ensures received == if fails then old(received) else old(received) + [frame]
    {
      threw := fails;
      if !fails {
        received := received + [frame];
      }
    }
  }

  /** The close status handed to `afterConnectionClosed`; it is only logged. */
  datatype CloseStatus = CloseStatus(code: Int32, reason: Option<string>)

  /** The open flag of each session, in order. */
  ghost function OpenFlags(ss: seq<Session>): seq<bool>
    reads ss
  {
    seq(|ss|, i reads ss requires 0 <= i < |ss| => ss[i].open)
  }

  /** Whether a send to each session throws, in order. */
  ghost function FailFlags(ss: seq<Session>, sendFails: Session -> bool): seq<bool> {
    seq(|ss|, i requires 0 <= i < |ss| => sendFails(ss[i]))
  }

  class KafkaWebSocketHandler {
    /** The `sessions` set, in insertion order. */
    var sessions: seq<Session>

    ghost predicate Valid()
      reads this
    {
      NoDuplicates(sessions)
    }

    constructor ()
      ensures Valid() && sessions == []
    {
      sessions := [];
    }

    method AfterConnectionEstablished(session: Session)
      requires Valid()
      modifies this
      ensures Valid()
      ensures sessions == Added(old(sessions), session)
    {
      AddedSpec(sessions, session);
      sessions := Added(sessions, session);
    }

    method AfterConnectionClosed(session: Session, status: CloseStatus)
      requires Valid()
      modifies this
      ensures Valid()
      ensures sessions == Removed(old(sessions), session)
    {
      RemovedMembers(sessions, session);
      sessions := Removed(sessions, session);
    }

    /**
      `listen`: render the envelope once with `render` (None: the mapper
      threw), then send that frame to every open session of the snapshot
      in order; a throwing send (`sendFails`) ends the loop, and either
      exception is caught and logged, so the method always returns.
    */
    method Listen(message: KafkaMessage<string>, render: KafkaMessage<string> -> Option<string>,
                  sendFails: Session -> bool)
      requires Valid()
      modifies sessions
      ensures Valid() && sessions == old(sessions)
      ensures forall s :: s in sessions ==> s.open == old(s.open)
      ensures render(message).None? ==> forall s :: s in sessions ==> s.received == old(s.received)
      ensures render(message).Some? ==>
        var d := Delivered(old(OpenFlags(sessions)), FailFlags(sessions, sendFails));
        forall i :: 0 <= i < |sessions| ==>
          sessions[i].received == old(sessions[i].received) + (if d[i] then [render(message).value] else [])
    {
      var json := render(message);
      if json.None? {
        return;
      }
      var frame := json.value;
      var snapshot := sessions;
      ghost var opens := OpenFlags(snapshot);
      ghost var fails := FailFlags(snapshot, sendFails);
      var i := 0;
      while i < |snapshot|
        invariant 0 <= i <= |snapshot|
        invariant forall j :: 0 <= j < i ==> !(opens[j] && fails[j])
        invariant forall j :: 0 <= j < |snapshot| ==> snapshot[j].open == opens[j]
        invariant forall j :: 0 <= j < |snapshot| ==>
          snapshot[j].received == old(snapshot[j].received) + (if j < i && opens[j] then [frame] else [])
      {
        var session := snapshot[i];
        if session.open {
          var threw := session.SendMessage(frame, sendFails(session));
          if threw {
            DeliveredBeforeFailure(opens, fails, i);
            DeliveredStopsAtFailure(opens, fails, i);
            return;
          }
        }
        i := i + 1;
      }
      DeliveredAllSucceed(opens, fails);
    }
  }
}
