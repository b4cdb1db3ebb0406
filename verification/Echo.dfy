/** The stop-and-wait echo of one datagram flow (memory.go). */
module Echo {
  import opened Wrappers

  type Byte = b: int | 0 <= b < 256

  const PAYLOAD_SIZE: nat := 64
  const TOKEN_SIZE: nat := 16
  const MAX_SEQUENCE: nat := 0xffff_ffff_ffff_ffff
  /** "tun-bench memory echo payload", padded with zeros to the end of the payload. */
  const TRAILER: seq<Byte> := [
    116, 117, 110, 45, 98, 101, 110, 99, 104, 32, 109, 101, 109, 111, 114, 121,
    32, 101, 99, 104, 111, 32, 112, 97, 121, 108, 111, 97, 100, 0, 0, 0]

  // ----- Big-endian numbers

  function Power(k: nat): nat { if k == 0 then 1 else 256 * Power(k - 1) }

  /** The last k bytes of a number, most significant first. */
  function Bytes(value: nat, k: nat): (bytes: seq<Byte>)
    ensures |bytes| == k
  {
    if k == 0 then [] else Bytes(value / 256, k - 1) + [value % 256]
  }

  function Number(bytes: seq<Byte>): nat {
    if bytes == [] then 0 else Number(bytes[..|bytes| - 1]) * 256 + bytes[|bytes| - 1]
  }

  /** Reading what was written gives the number back. */
  lemma {:induction false} RoundTrip(value: nat, k: nat)
    requires value < Power(k)
    ensures Number(Bytes(value, k)) == value
  {
    if k > 0 {
      assert Bytes(value, k)[..k - 1] == Bytes(value / 256, k - 1);
      assert value / 256 < Power(k - 1);
      RoundTrip(value / 256, k - 1);
    }
  }

  lemma Power8()
    ensures Power(8) == MAX_SEQUENCE + 1
  {
  }

  // ----- Payloads

  ghost predicate IsToken(token: seq<Byte>) { |token| == TOKEN_SIZE }

  function Payload(token: seq<Byte>, index: nat, sequence: nat): seq<Byte> {
    token + Bytes(index, 8) + Bytes(sequence, 8) + TRAILER
  }

  lemma PayloadParts(token: seq<Byte>, index: nat, sequence: nat)
    requires IsToken(token)
    ensures
      var payload := Payload(token, index, sequence);
      && |payload| == PAYLOAD_SIZE
      && payload[..24] == token + Bytes(index, 8)
      && payload[24..32] == Bytes(sequence, 8)
      && payload[32..] == TRAILER
  {
  }

  lemma PayloadIs(token: seq<Byte>, index: nat, sequence: nat, payload: seq<Byte>)
    requires IsToken(token) && payload == token + Bytes(index, 8) + Bytes(sequence, 8) + TRAILER
    ensures payload == Payload(token, index, sequence)
    ensures payload[..24] == token + Bytes(index, 8) && payload[32..] == TRAILER
  {
  }

  // ----- What the client makes of a datagram

  datatype Verdict = Match | Stale | Mismatch

  function Judge(response: seq<Byte>, payload: seq<Byte>, sequence: nat): Verdict
    requires |payload| == PAYLOAD_SIZE
  {
    if |response| == PAYLOAD_SIZE && response == payload then Match
    else if |response| == PAYLOAD_SIZE && response[..24] == payload[..24] && Number(response[24..32]) < sequence then Stale
    else Mismatch
  }

  /**
   * An echo of the same flow is a match, stale, or a mismatch as its number equals, is below or is above the current
   * one.
   */
  lemma JudgeEcho(token: seq<Byte>, index: nat, sent: nat, sequence: nat)
    requires IsToken(token) && sent <= MAX_SEQUENCE && sequence <= MAX_SEQUENCE
    ensures |Payload(token, index, sequence)| == PAYLOAD_SIZE
    ensures
      var verdict := Judge(Payload(token, index, sent), Payload(token, index, sequence), sequence);
      && (verdict == Match <==> sent == sequence)
      && (verdict == Stale <==> sent < sequence)
      && (verdict == Mismatch <==> sent > sequence)
  {
    Power8();
    RoundTrip(sent, 8);
    RoundTrip(sequence, 8);
    PayloadParts(token, index, sent);
    PayloadParts(token, index, sequence);
  }

  /** A datagram is an echo of some request of the flow, or at least carries its token and its index. */
  ghost predicate OfFlow(token: seq<Byte>, index: nat, datagram: seq<Byte>) {
    |datagram| == PAYLOAD_SIZE && datagram[..24] == token + Bytes(index, 8)
  }

  /** A match is the payload itself, and nothing is stale that is not of the flow and of a lower number. */
  lemma JudgeExactly(token: seq<Byte>, index: nat, sequence: nat, datagram: seq<Byte>)
    requires IsToken(token) && sequence <= MAX_SEQUENCE
    ensures |Payload(token, index, sequence)| == PAYLOAD_SIZE
    ensures
      var payload := Payload(token, index, sequence);
      var verdict := Judge(datagram, payload, sequence);
      && (verdict == Match <==> datagram == payload)
      && (verdict == Stale <==> OfFlow(token, index, datagram) && Number(datagram[24..32]) < sequence)
  {
    Power8();
    RoundTrip(sequence, 8);
    PayloadParts(token, index, sequence);
  }

  /** So a payload of any other flow is a mismatch, whatever its number. */
  lemma ForeignIsMismatch(token: seq<Byte>, index: nat, sequence: nat, token': seq<Byte>, index': nat, sequence': nat)
    requires IsToken(token) && IsToken(token') && index <= MAX_SEQUENCE && index' <= MAX_SEQUENCE
    requires sequence <= MAX_SEQUENCE && (token' != token || index' != index)
    ensures |Payload(token, index, sequence)| == PAYLOAD_SIZE
    ensures Judge(Payload(token', index', sequence'), Payload(token, index, sequence), sequence) == Mismatch
  {
    var own, foreign := token + Bytes(index, 8), token' + Bytes(index', 8);
    Power8();
    RoundTrip(index, 8);
    RoundTrip(index', 8);
    assert own[..16] == token && own[16..] == Bytes(index, 8);
    assert foreign[..16] == token' && foreign[16..] == Bytes(index', 8);
    PayloadParts(token, index, sequence);
    PayloadParts(token', index', sequence');
    JudgeExactly(token, index, sequence, Payload(token', index', sequence'));
  }

  /** The next number, as uint64 wraps it. */
  function NextSequence(sequence: nat): nat
    requires sequence <= MAX_SEQUENCE
  {
    if sequence == MAX_SEQUENCE then 0 else sequence + 1
  }

  /** An echo of an earlier request of a flow can be mistaken for a mismatch exactly when the number wraps around. */
  lemma MismatchExactly(token: seq<Byte>, index: nat, sent: nat, sequence: nat)
    requires IsToken(token) && 1 <= sent <= sequence <= MAX_SEQUENCE
    ensures |Payload(token, index, NextSequence(sequence))| == PAYLOAD_SIZE
    ensures
      Judge(Payload(token, index, sent), Payload(token, index, NextSequence(sequence)), NextSequence(sequence)) == Mismatch
      <==> sequence == MAX_SEQUENCE
  {
    JudgeEcho(token, index, sent, NextSequence(sequence));
  }

  // ----- The network between a flow and the echo server

  /** What a read gives: a datagram, nothing until the deadline, or an error of the socket. */
  datatype Arrival = Datagram(content: seq<Byte>) | Nothing | Broken

  /**
   * Everything the flow has sent, and which of it the server has read so far. The server writes back what it read; any
   * of that may arrive at any later time, in any order, any number of times, or never, but not altered.
   */
  class Datagrams {
    var requests: seq<seq<Byte>>
    var served: set<nat>
    /** The socket of the flow has failed. */
    ghost var broken: bool

    ghost predicate Valid()
      reads this
    {
      forall k :: k in served ==> k < |requests|
    }

    constructor ()
      ensures Valid() && requests == [] && served == {} && !broken
    {
      requests, served, broken := [], {}, false;
    }

    method Send(payload: seq<Byte>) returns (fails: bool)
      requires Valid()
      modifies this`requests, this`broken
      ensures Valid() && requests == old(requests) + (if fails then [] else [payload])
      ensures broken == (old(broken) || fails)
    {
      fails := *;
      if fails {
        broken := true;
      } else {
        requests := requests + [payload];
      }
    }

    /** Waits up to `limit` for a datagram, while the server may read requests. A read takes some time. */
    method Receive(limit: nat) returns (arrival: Arrival, elapsed: nat, ghost origin: nat)
      requires Valid() && limit > 0
      modifies this`served, this`broken
      ensures Valid() && old(served) <= served
      ensures 0 < elapsed <= limit && (arrival.Nothing? ==> elapsed == limit)
      ensures arrival.Datagram? ==> origin in served && arrival.content == requests[origin]
      ensures broken == (old(broken) || arrival.Broken?)
    {
      for k := 0 to |requests|
        invariant Valid() && old(served) <= served && broken == old(broken)
      {
        if * {
          served := served + {k};
        }
      }
      arrival, elapsed, origin := Nothing, limit, 0;
      if * {
        arrival, broken := Broken, true;
      } else if served != {} {
        if * {
          var k :| k in served;
          arrival, origin := Datagram(requests[k]), k;
          elapsed :| 0 < elapsed <= limit;
        }
      }
    }
  }

  // ----- The client

  datatype ExchangeResult = Confirmed | TimedOut | SocketFailed | PayloadMismatch

  const ATTEMPT: nat := 250

  /** How many requests are sent before a deadline that far away: one at once, and one after each attempt. */
  function Attempts(time: nat): nat { if time <= ATTEMPT then 1 else 1 + Attempts(time - ATTEMPT) }

  /** A datagram that carries a number below the current one. */
  ghost predicate Late(token: seq<Byte>, index: nat, sequence: nat, datagram: seq<Byte>) {
    exists number: nat :: number < sequence && datagram == Payload(token, index, number)
  }

  /** Nothing was heard but echoes of earlier requests. */
  ghost predicate OnlyLate(token: seq<Byte>, index: nat, sequence: nat, heard: seq<seq<Byte>>) {
    forall k :: 0 <= k < |heard| ==> Late(token, index, sequence, heard[k])
  }

  /** A late echo is not the one that is waited for. */
  lemma OnlyLateHeard(token: seq<Byte>, index: nat, sequence: nat, heard: seq<seq<Byte>>)
    requires IsToken(token) && sequence <= MAX_SEQUENCE && OnlyLate(token, index, sequence, heard)
    ensures Payload(token, index, sequence) !in heard
  {
    forall k | 0 <= k < |heard|
      ensures heard[k] != Payload(token, index, sequence)
    {
      assert Late(token, index, sequence, heard[k]);
      var number: nat :| number < sequence && heard[k] == Payload(token, index, number);
      JudgeEcho(token, index, number, sequence);
    }
  }

  class MemoryFlow {
    const network: Datagrams
    const payload: array<Byte>
    ghost const token: seq<Byte>
    ghost const index: nat
    var sequence: nat
    /** The number carried by each request sent so far. */
    ghost var numbers: seq<nat>
    /** The datagrams that arrived during the latest exchange, and the time that it took. */
    ghost var heard: seq<seq<Byte>>
    ghost var spent: nat

    ghost predicate Valid()
      reads this, network, payload
    {
      && network.Valid() && IsToken(token)
      && payload.Length == PAYLOAD_SIZE && sequence <= MAX_SEQUENCE
      && payload[..24] == token + Bytes(index, 8) && payload[32..] == TRAILER
      && (sequence > 0 ==> payload[..] == Payload(token, index, sequence))
      && |numbers| == |network.requests|
      && forall k :: 0 <= k < |numbers| ==>
           1 <= numbers[k] <= sequence && network.requests[k] == Payload(token, index, numbers[k])
    }

    constructor (token: seq<Byte>, index: nat, network: Datagrams)
      requires IsToken(token) && network.Valid() && network.requests == []
      ensures Valid() && sequence == 0 && this.network == network && fresh(payload)
      ensures this.token == token && this.index == index
    {
      this.network, this.token, this.index := network, token, index;
      sequence, numbers, heard, spent := 0, [], [], 0;
      var content := token + Bytes(index, 8) + Bytes(0, 8) + TRAILER;
      payload := new Byte[PAYLOAD_SIZE](i requires 0 <= i < PAYLOAD_SIZE => content[i]);
      new;
      assert payload[..] == content;
      assert payload[..24] == content[..24] == token + Bytes(index, 8);
      assert payload[32..] == content[32..] == TRAILER;
    }

    /** Within an exchange: requests from `start` on carry the current number, and earlier ones carry lower numbers. */
    ghost predicate Asking(start: nat, wraps: bool)
      reads this, network, payload
    {
      && network.Valid() && IsToken(token)
      && payload.Length == PAYLOAD_SIZE && sequence <= MAX_SEQUENCE
      && payload[..] == Payload(token, index, sequence)
      && start <= |numbers| == |network.requests|
      && (forall k :: 0 <= k < |numbers| ==>
            && 0 <= numbers[k] <= MAX_SEQUENCE
            && network.requests[k] == Payload(token, index, numbers[k]))
      && (forall k :: start <= k < |numbers| ==> numbers[k] == sequence)
      && (!wraps ==> forall k :: 0 <= k < start ==> 1 <= numbers[k] < sequence)
    }

    /** Writes the current number into bytes 24 to 31 of the payload. */
    method PutSequence()
      requires payload.Length == PAYLOAD_SIZE
      modifies payload
      ensures payload[..] == old(payload[..24]) + Bytes(sequence, 8) + old(payload[32..])
    {
      var rest := sequence;
      ghost var bytes := Bytes(sequence, 8);
      for i := 8 downto 0
        invariant Bytes(rest, i) == bytes[..i]
        invariant payload[..24 + i] == old(payload[..24 + i])
        invariant payload[24 + i..32] == bytes[i..]
        invariant payload[32..] == old(payload[32..])
      {
        assert bytes[..i + 1] == Bytes(rest / 256, i) + [rest % 256];
        assert bytes[i] == bytes[..i + 1][i] == rest % 256;
        assert bytes[..i] == bytes[..i + 1][..i];
        ghost var tail := payload[25 + i..32];
        payload[24 + i], rest := rest % 256, rest / 256;
        assert payload[24 + i..32] == [bytes[i]] + tail;
        assert payload[24 + i..32] == bytes[i..];
      }
    }

    /** The server has read a request that was sent since `start` and carries the current number. */
    ghost predicate Reached(start: nat)
      reads this, network
    {
      exists k :: start <= k < |network.requests| && k in network.served
                  && network.requests[k] == Payload(token, index, sequence)
    }

    /**
     * Reads until the attempt is over, skipping late echoes. Without a wrap it is confirmed as soon as the echo of the
     * current request arrives, and otherwise goes on until the time is over or the socket fails.
     */
    method AwaitEcho(time: nat, ghost start: nat, ghost wraps: bool) returns (result: Option<ExchangeResult>)
      requires Asking(start, wraps) && (!wraps ==> OnlyLate(token, index, sequence, heard))
      modifies network`served, network`broken, this`heard, this`spent
      ensures Asking(start, wraps) && old(spent) <= spent
      ensures result.Some? ==> result.value != TimedOut
      ensures network.broken == (old(network.broken) || result == Some(SocketFailed))
      ensures result.None? ==> spent == old(spent) + time
      ensures !wraps ==> result != Some(PayloadMismatch)
      ensures !wraps && result != Some(Confirmed) ==> OnlyLate(token, index, sequence, heard)
      ensures !wraps && result == Some(Confirmed) ==> payload[..] in heard && Reached(start)
    {
      var attempt := time;
      while attempt > 0
        invariant Asking(start, wraps) && (!wraps ==> OnlyLate(token, index, sequence, heard))
        invariant 0 <= attempt <= time && spent == old(spent) + (time - attempt)
        invariant network.broken == old(network.broken)
        decreases attempt
      {
        var arrival, elapsed, origin := network.Receive(attempt);
        attempt, spent := attempt - elapsed, spent + elapsed;
        match arrival {
          case Nothing =>
            return None;
          case Broken =>
            return Some(SocketFailed);
          case Datagram(content) =>
            ghost var before := heard;
            heard := heard + [content];
            PayloadParts(token, index, sequence);
            if !wraps {
              JudgeEcho(token, index, numbers[origin], sequence);
              assert numbers[origin] < sequence ==> Late(token, index, sequence, content);
            }
            match Judge(content, payload[..], sequence) {
              case Match =>
                assert heard[|before|] == payload[..];
                return Some(Confirmed);
              case Stale =>
              case Mismatch =>
                return Some(PayloadMismatch);
            }
        }
      }
      return None;
    }

    /** Raises the number, and writes it into the payload. */
    method Begin()
      requires Valid()
      modifies this`sequence, this`heard, this`spent, payload
      ensures sequence == NextSequence(old(sequence)) && heard == [] && spent == 0
      ensures Asking(|network.requests|, old(sequence) == MAX_SEQUENCE)
    {
      hide Payload, Bytes;
      sequence := if sequence == MAX_SEQUENCE then 0 else sequence + 1;
      heard, spent := [], 0;
      PutSequence();
      PayloadIs(token, index, sequence, payload[..]);
    }

    /** Sends the request and awaits its echo, until the deadline. */
    method Repeat(time: nat, ghost start: nat, ghost wraps: bool) returns (result: ExchangeResult)
      requires Asking(start, wraps) && start == |network.requests| && heard == [] && spent == 0
      modifies this`numbers, this`heard, this`spent, network
      ensures Asking(start, wraps) && old(network.requests) <= network.requests
      ensures network.broken == (old(network.broken) || result == SocketFailed)
      ensures result == TimedOut ==> spent == time && |network.requests| == start + Attempts(time)
      ensures !wraps ==> result != PayloadMismatch
      ensures !wraps && result != Confirmed ==> OnlyLate(token, index, sequence, heard)
      ensures !wraps && result == Confirmed ==> payload[..] in heard && Reached(start)
    {
      hide Payload, Bytes, Late;
      var remaining: nat := time;
      while true
        invariant Asking(start, wraps) && (!wraps ==> OnlyLate(token, index, sequence, heard))
        invariant old(network.requests) <= network.requests && network.broken == old(network.broken)
        invariant spent == time - remaining && remaining <= time
        invariant |network.requests| + Attempts(remaining) == start + Attempts(time)
        decreases remaining
      {
        var fails := network.Send(payload[..]);
        if fails {
          return SocketFailed;
        }
        numbers := numbers + [sequence];
        var attempt: nat := if remaining < ATTEMPT then remaining else ATTEMPT;
        remaining := remaining - attempt;
        var answer := AwaitEcho(attempt, start, wraps);
        if answer.Some? {
          return answer.value;
        }
        if remaining == 0 {
          return TimedOut;
        }
      }
    }

    /**
     * `exchange`, with `time` left until its deadline. Until the number wraps around, no request in flight carries a
     * number above the current one, and a mismatch is impossible. It is confirmed exactly if the echo of the current
     * request arrives; this means that the server has read a request sent during this very exchange. It fails with the
     * socket exactly if that fails, and times out only when the time is used up, with a request for every attempt, having
     * heard nothing but echoes of earlier requests.
     */
    method Exchange(time: nat) returns (result: ExchangeResult)
      requires Valid()
      modifies this`sequence, this`numbers, this`heard, this`spent, payload, network
      ensures sequence == NextSequence(old(sequence))
      ensures old(sequence) < MAX_SEQUENCE ==> Valid() && result != PayloadMismatch
      ensures old(network.requests) <= network.requests
      ensures forall k :: |old(network.requests)| <= k < |network.requests| ==> network.requests[k] == payload[..]
      ensures network.broken == (old(network.broken) || result == SocketFailed)
      ensures old(sequence) < MAX_SEQUENCE ==> (result == Confirmed <==> payload[..] in heard)
      ensures old(sequence) < MAX_SEQUENCE && result == Confirmed ==> Reached(|old(network.requests)|)
      ensures result == TimedOut ==>
        spent == time && |network.requests| == |old(network.requests)| + Attempts(time)
      ensures old(sequence) < MAX_SEQUENCE && result == TimedOut ==> OnlyLate(token, index, sequence, heard)
    {
      hide Payload, Bytes, OnlyLate;
      Begin();
      result := Repeat(time, |network.requests|, old(sequence) == MAX_SEQUENCE);
      PayloadParts(token, index, sequence);
      if old(sequence) < MAX_SEQUENCE && result != Confirmed {
        OnlyLateHeard(token, index, sequence, heard);
      }
    }
  }
}
