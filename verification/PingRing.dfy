/**
  Ping statistics: a ring of 32 slots indexed by a sequence number that wraps
  at 16 bits. Against the unbounded history of pings sent since the start, the
  ring matches a reply with exactly the pings still in its window.
*/
module PingRing {
  import opened Net

  const WINDOW := 32
  const WRAP := 65536

  type Sequence = s: int | 0 <= s < WRAP

  datatype Slot = Slot(timestamp: int, latency: int, sequence: Sequence)

  const EMPTY_SLOT := Slot(-1, -1, 0)

  /** Ping number k is among the last 32 of the n sent. */
  predicate InWindow(n: nat, k: nat) {
    k < n <= k + WINDOW
  }

  /** The ping of the window that a 16-bit sequence number denotes, if any. */
  predicate Denotes(n: nat, s: Sequence, k: nat) {
    InWindow(n, k) && k % WRAP == s
  }

  /** The last of the n pings that went to slot i. */
  function Last(n: nat, i: nat): Option<nat>
    requires i < WINDOW
  {
    if n <= i then None else Some(n - 1 - (n - 1 - i) % WINDOW)
  }

  lemma LastIsLatest(n: nat, i: nat, k: nat)
    requires i < WINDOW
    ensures Last(n, i) == Some(k) <==> InWindow(n, k) && k % WINDOW == i
  {
  }

  /** The ring index of the wrapped number is that of the number itself. */
  lemma WrapKeepsIndex(k: nat)
    ensures (k % WRAP) % WINDOW == k % WINDOW
  {
  }

  /** A sequence number denotes at most one ping of the window. */
  lemma DenotesUnique(n: nat, s: Sequence, j: nat, k: nat)
    requires Denotes(n, s, j) && Denotes(n, s, k)
    ensures j == k
  {
  }

  /** A ping sent: when, and the latency last recorded for it. */
  datatype Sent = Sent(timestamp: int, latency: int)

  /** What slot i holds after the pings of a history. */
  function SlotOf(history: seq<Sent>, i: nat): Slot
    requires i < WINDOW
  {
    match Last(|history|, i)
    case None => EMPTY_SLOT
    case Some(k) => LastIsLatest(|history|, i, k); Slot(history[k].timestamp, history[k].latency, k % WRAP)
  }

  /** A reply 0 before the first ping. */
  predicate Stray(n: nat, s: Sequence) {
    n == 0 && s == 0
  }

  /**
    The slot a reply selects carries its number exactly when the number denotes
    a ping of the window, or is a stray 0 before the first ping: unused slots
    carry number 0 too.
  */
  lemma SlotMatches(history: seq<Sent>, s: Sequence)
    ensures SlotOf(history, s % WINDOW).sequence == s <==>
            (exists k: nat :: Denotes(|history|, s, k)) || Stray(|history|, s)
    ensures forall k: nat :: Denotes(|history|, s, k) ==> Last(|history|, s % WINDOW) == Some(k)
  {
    var n, i := |history|, s % WINDOW;
    forall k: nat | Denotes(n, s, k) ensures Last(n, i) == Some(k) && SlotOf(history, i).sequence == s {
      WrapKeepsIndex(k);
      LastIsLatest(n, i, k);
    }
    if n > i && SlotOf(history, i).sequence == s {
      var k := Last(n, i).value;
      LastIsLatest(n, i, k);
      assert Denotes(n, s, k);
    }
  }

  /** After one more ping only the slot of that ping differs. */
  lemma SlotsAfterSend(history: seq<Sent>, p: Sent, i: nat)
    requires i < WINDOW
    ensures SlotOf(history + [p], i) ==
            if i == |history| % WINDOW then Slot(p.timestamp, p.latency, |history| % WRAP) else SlotOf(history, i)
  {
    var n := |history|;
    if i == n % WINDOW {
      LastIsLatest(n + 1, i, n);
    } else if n > i {
      var k := Last(n, i).value;
      LastIsLatest(n, i, k);
      assert k + WINDOW != n by {
        assert (k + WINDOW) % WINDOW == k % WINDOW;
      }
      LastIsLatest(n + 1, i, k);
    }
  }

  /** A latency recorded for one ping of the window changes its slot and no other. */
  lemma SlotsAfterReply(history: seq<Sent>, k: nat, latency: int, i: nat)
    requires i < WINDOW && InWindow(|history|, k)
    ensures SlotOf(history[k := history[k].(latency := latency)], i) ==
            if i == k % WINDOW then SlotOf(history, i).(latency := latency) else SlotOf(history, i)
  {
    LastIsLatest(|history|, i, k);
    if Last(|history|, i).Some? {
      LastIsLatest(|history|, i, Last(|history|, i).value);
    }
  }

  class PingHelper {
    var sequence: Sequence
    const pingData: array<Slot>
    var measured: seq<int>          // the latencies announced
    ghost var history: seq<Sent>    // every ping since the start

    ghost predicate Valid()
      reads this, pingData
    {
      && pingData.Length == WINDOW
      && sequence == |history| % WRAP
      && forall i | 0 <= i < WINDOW :: Agrees(pingData[i], history, i)
    }

    /** A slot agrees with the history; before the first ping, slot 0 may hold a stray latency. */
    static ghost predicate Agrees(slot: Slot, history: seq<Sent>, i: nat)
      requires i < WINDOW
    {
      slot == SlotOf(history, i) || (i == |history| == 0 && slot == EMPTY_SLOT.(latency := slot.latency))
    }

    constructor ()
      ensures Valid() && history == [] && measured == []
      ensures fresh(pingData)
    {
      sequence, history, measured := 0, [], [];
      pingData := new Slot[WINDOW](_ => EMPTY_SLOT);
    }

    method Start()
      requires pingData.Length == WINDOW
      modifies this`sequence, this`history, pingData
      ensures Valid() && history == []
    {
      sequence, history := 0, [];
      for i := 0 to WINDOW
        modifies pingData
        invariant forall j | 0 <= j < i :: pingData[j] == EMPTY_SLOT
      {
        pingData[i] := EMPTY_SLOT;
      }
    }

    method NextPing(now: int) returns (sent: Sequence)
      requires Valid()
      modifies this`sequence, this`history, pingData
      ensures Valid()
      ensures history == old(history) + [Sent(now, -1)]
      ensures sent == |old(history)| % WRAP
    {
      var index := sequence % WINDOW;
      sent := sequence;
      WrapKeepsIndex(|history|);
      forall i | 0 <= i < WINDOW
        ensures SlotOf(history + [Sent(now, -1)], i) ==
                if i == index then Slot(now, -1, sequence) else SlotOf(history, i)
      {
        SlotsAfterSend(history, Sent(now, -1), i);
      }
      pingData[index] := Slot(now, -1, sequence);
      history := history + [Sent(now, -1)];
      sequence := (sequence + 1) % WRAP;
    }

    /**
      A reply is recorded exactly when its number denotes one of the last 32
      pings, and then for that ping alone. The one exception is a stray 0
      before the first ping, which announces a latency for no ping at all.
    */
    method PingReceived(s: Sequence, now: int) returns (recorded: bool)
      requires Valid()
      modifies this`history, this`measured, pingData
      ensures Valid()
      ensures recorded <==> (exists k: nat :: Denotes(|old(history)|, s, k)) || Stray(|old(history)|, s)
      ensures !recorded ==> history == old(history) && measured == old(measured) && pingData[..] == old(pingData[..])
      ensures forall k: nat | Denotes(|old(history)|, s, k) ::
        && history == old(history)[k := old(history)[k].(latency := now - old(history)[k].timestamp)]
        && measured == old(measured) + [now - old(history)[k].timestamp]
      ensures Stray(|old(history)|, s) ==> history == [] && |measured| == |old(measured)| + 1
      ensures forall i | 0 <= i < WINDOW && i != s % WINDOW :: pingData[i] == old(pingData[i])
    {
      var index := s % WINDOW;
      SlotMatches(history, s);
      recorded := pingData[index].sequence == s;
      if recorded {
        var latency := now - pingData[index].timestamp;
        if !Stray(|history|, s) {
          ghost var k: nat :| Denotes(|history|, s, k);
          Answer(k, s, latency);
        }
        pingData[index] := pingData[index].(latency := latency);
        measured := measured + [latency];
      }
    }

    /** Writes a latency to the history of the ping that a reply denotes. */
    ghost method Answer(k: nat, s: Sequence, latency: int)
      requires Denotes(|history|, s, k)
      modifies this`history
      ensures history == old(history)[k := old(history)[k].(latency := latency)]
      ensures forall j: nat | Denotes(|history|, s, j) :: j == k
      ensures forall i | 0 <= i < WINDOW && i != s % WINDOW :: SlotOf(history, i) == SlotOf(old(history), i)
      ensures SlotOf(history, s % WINDOW) == SlotOf(old(history), s % WINDOW).(latency := latency)
    {
      WrapKeepsIndex(k);
      forall i | 0 <= i < WINDOW
        ensures SlotOf(history[k := history[k].(latency := latency)], i) ==
                if i == s % WINDOW then SlotOf(history, i).(latency := latency) else SlotOf(history, i)
      {
        SlotsAfterReply(history, k, latency, i);
      }
      forall j: nat | Denotes(|history|, s, j) ensures j == k {
        DenotesUnique(|history|, s, j, k);
      }
      history := history[k := history[k].(latency := latency)];
    }
  }
}
