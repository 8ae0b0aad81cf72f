/**
  Pings sent as DNS queries (header of section 4.1.1 of RFC 1035) and the
  checks a datagram passes to count as a reply.
*/
module DnsPing {
  import opened Net
  import opened PingRing

  type Byte = b: int | 0 <= b < 256

  datatype Header = Header(id: Sequence, flags: Sequence, questions: Sequence,
                           answers: Sequence, authorities: Sequence, additional: Sequence)

  function BigEndian(w: Sequence): seq<Byte> {
    [w / 256, w % 256]
  }

  function Encode(h: Header): seq<Byte> {
    BigEndian(h.id) + BigEndian(h.flags) + BigEndian(h.questions) +
    BigEndian(h.answers) + BigEndian(h.authorities) + BigEndian(h.additional)
  }

  function WordAt(data: seq<Byte>, i: nat): Sequence
    requires i + 1 < |data|
  {
    var hi: int, lo: int := data[i], data[i + 1];
    256 * hi + lo
  }

  /** The header of a datagram, if it is long enough to have one. */
  function Decode(data: seq<Byte>): Option<Header> {
    if |data| < 12 then None
    else Some(Header(WordAt(data, 0), WordAt(data, 2), WordAt(data, 4),
                     WordAt(data, 6), WordAt(data, 8), WordAt(data, 10)))
  }

  lemma HeaderRoundTrip(h: Header, rest: seq<Byte>)
    ensures Decode(Encode(h) + rest) == Some(h)
  {
  }

  /** The question for the root name server: root, type A, class IN. */
  const ROOT_QUERY: seq<Byte> := [0, 0, 1, 0, 1]

  /** The datagram that carries ping number `s`. */
  method Query(s: Sequence) returns (packet: seq<Byte>)
    ensures Decode(packet) == Some(Header(s, 0, 1, 0, 0, 0))
    ensures packet[12..] == ROOT_QUERY
    ensures Reply(packet) == None
  {
    var header := Header(s, 0, 1, 0, 0, 0);
    packet := [];
    packet := packet + Encode(header);
    packet := packet + ROOT_QUERY;
    HeaderRoundTrip(header, ROOT_QUERY);
    assert packet == Encode(header) + ROOT_QUERY;
  }

  predicate IsResponse(flags: Sequence) {
    flags / 0x8000 % 2 == 1
  }

  function Opcode(flags: Sequence): nat {
    flags / 0x0800 % 16
  }

  /** The ping number that a datagram answers: a response to a standard query. */
  function Reply(data: seq<Byte>): Option<Sequence> {
    match Decode(data)
    case None => None
    case Some(h) => if IsResponse(h.flags) && Opcode(h.flags) == 0 then Some(h.id) else None
  }

  /** The replies among datagrams, up to the first that cannot be received. */
  function Replies(datagrams: seq<Option<seq<Byte>>>): seq<Sequence> {
    if datagrams == [] || datagrams[0].None? then []
    else (match Reply(datagrams[0].value) case Some(s) => [s] case None => [])
         + Replies(datagrams[1..])
  }

  /** The checks on one datagram, in the order they are made. */
  method CheckReply(payload: seq<Byte>) returns (reply: Option<Sequence>)
    ensures reply == Reply(payload)
  {
    if |payload| < 12 {
      return None;
    }
    var flags := WordAt(payload, 2);
    if flags / 0x8000 % 2 == 0 {
      return None;
    }
    if flags / 0x0800 % 16 != 0 {
      return None;
    }
    return Some(WordAt(payload, 0));
  }

  /** The receive loop; a datagram that could not be received is `None`. */
  method ReadData(datagrams: seq<Option<seq<Byte>>>) returns (received: seq<Sequence>)
    ensures received == Replies(datagrams)
  {
    received := [];
    for i := 0 to |datagrams|
      invariant received + Replies(datagrams[i..]) == Replies(datagrams)
    {
      assert datagrams[i..][1..] == datagrams[i + 1..];
      if datagrams[i].None? {
        break;
      }
      var reply := CheckReply(datagrams[i].value);
      if reply.Some? {
        received := received + [reply.value];
      }
    }
  }

  /** A server that answers the query echoes its number and sets the response bit. */
  predicate Answers(query: seq<Byte>, response: seq<Byte>) {
    Decode(query).Some? && Decode(response).Some? &&
    var q, r := Decode(query).value, Decode(response).value;
    r.id == q.id && IsResponse(r.flags) && Opcode(r.flags) == Opcode(q.flags)
  }

  /** The only ping an answer to query `s` can be taken for is one numbered `s`. */
  lemma AnswerIsMatched(s: Sequence, query: seq<Byte>, response: seq<Byte>, n: nat, k: nat)
    requires Decode(query) == Some(Header(s, 0, 1, 0, 0, 0)) && Answers(query, response)
    requires InWindow(n, k) && k % WRAP == s
    ensures Reply(response) == Some(s)
    ensures forall j: nat :: Denotes(n, Reply(response).value, j) <==> j == k
  {
  }
}
