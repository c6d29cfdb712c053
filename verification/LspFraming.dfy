/** The language client's framing: header part, blank line, content part, over chunks of bytes. */
module LspFraming {
  import opened Wrappers

  type Byte = b: int | 0 <= b < 256
  type Bytes = seq<Byte>

  // "\r\n\r\n", "content-length:" and "Content-Length: " in ASCII.
  const BLANK_LINE: Bytes := [13, 10, 13, 10]
  const FIELD: Bytes := [99, 111, 110, 116, 101, 110, 116, 45, 108, 101, 110, 103, 116, 104, 58]
  const SENT_FIELD: Bytes := [67, 111, 110, 116, 101, 110, 116, 45, 76, 101, 110, 103, 116, 104, 58, 32]

  // ---------------------------------------------------------------------------------
  // Scanning

  predicate MatchesAt(b: Bytes, i: nat, pattern: Bytes) {
    i + |pattern| <= |b| && b[i..i + |pattern|] == pattern
  }

  // The first match at or after i.
  function IndexFrom(b: Bytes, i: nat, pattern: Bytes): (r: Option<nat>)
    requires i <= |b|
    ensures r.Some? ==> i <= r.value <= r.value + |pattern| <= |b| && MatchesAt(b, r.value, pattern)
    ensures forall j | i <= j && (r.Some? ==> j < r.value) :: !MatchesAt(b, j, pattern)
    decreases |b| - i
  {
    if MatchesAt(b, i, pattern) then Some(i)
    else if i == |b| then None
    else IndexFrom(b, i + 1, pattern)
  }

  function Lower(b: Byte): Byte {
    if 65 <= b <= 90 then b + 32 else b
  }

  predicate IsSpace(b: Byte) {
    9 <= b <= 13 || b == 32
  }

  predicate IsDigit(b: Byte) {
    48 <= b <= 57
  }

  function SkipSpaces(h: Bytes, i: nat): (j: nat)
    requires i <= |h|
    ensures i <= j <= |h|
    decreases |h| - i
  {
    if i < |h| && IsSpace(h[i]) then SkipSpaces(h, i + 1) else i
  }

  function DigitsEnd(h: Bytes, i: nat): (j: nat)
    requires i <= |h|
    ensures i <= j <= |h| && forall k | i <= k < j :: IsDigit(h[k])
    decreases |h| - i
  {
    if i < |h| && IsDigit(h[i]) then DigitsEnd(h, i + 1) else i
  }

  function Number(digits: Bytes): nat
    requires forall k | 0 <= k < |digits| :: IsDigit(digits[k])
  {
    if digits == [] then 0
    else
      assert IsDigit(digits[|digits| - 1]);
      10 * Number(digits[..|digits| - 1]) + (digits[|digits| - 1] as int - 48)
  }

  predicate FieldAt(h: Bytes, i: nat) {
    i + |FIELD| <= |h| && forall k | 0 <= k < |FIELD| :: Lower(h[i + k]) == FIELD[k]
  }

  // The number that the pattern /Content-Length:\\s*(\\d+)/i first matches, at or after i.
  function LengthFrom(h: Bytes, i: nat): Option<nat>
    requires i <= |h|
    decreases |h| - i
  {
    if FieldAt(h, i) && DigitsAfter(h, i) != [] then Some(Number(DigitsAfter(h, i)))
    else if i == |h| then None
    else LengthFrom(h, i + 1)
  }

  function DigitsAfter(h: Bytes, i: nat): (digits: Bytes)
    requires FieldAt(h, i)
    ensures forall k | 0 <= k < |digits| :: IsDigit(digits[k])
  {
    var start := SkipSpaces(h, i + |FIELD|);
    h[start..DigitsEnd(h, start)]
  }

  // ---------------------------------------------------------------------------------
  // What a buffer holds

  // What stands at the head of the buffer: too little data, a header without a length, or a
  // header with a complete body.
  datatype Head = Partial | NoLength(next: nat) | Message(start: nat, end: nat)

  function HeadOf(b: Bytes): (r: Head)
    ensures r.NoLength? ==> 4 <= r.next <= |b|
    ensures r.Message? ==> 4 <= r.start <= r.end <= |b|
  {
    var marker := IndexFrom(b, 0, BLANK_LINE);
    if marker.None? then Partial
    else
      var start := marker.value + 4;
      var length := LengthFrom(b[..marker.value], 0);
      if length.None? then NoLength(start)
      else if |b| < start + length.value then Partial
      else Message(start, start + length.value)
  }

  // The bodies that can be taken out, what stays buffered, and whether the head is a complete
  // body that does not decode: it is not removed, so nothing behind it is ever reached.
  datatype Drained = Drained(bodies: seq<Bytes>, rest: Bytes, stuck: bool)

  function Drain(b: Bytes, decodes: Bytes -> bool): (d: Drained)
    ensures |d.rest| <= |b|
    decreases |b|
  {
    match HeadOf(b)
    case Partial => Drained([], b, false)
    case NoLength(next) => Drain(b[next..], decodes)
    case Message(start, end) =>
      if !decodes(b[start..end]) then Drained([], b, true)
      else
        var d := Drain(b[end..], decodes);
        d.(bodies := [b[start..end]] + d.bodies)
  }

  lemma DrainHead(b: Bytes, decodes: Bytes -> bool)
    ensures var (d, h) := (Drain(b, decodes), HeadOf(b));
            if h.Partial? then d == Drained([], b, false)
            else if h.NoLength? then d == Drain(b[h.next..], decodes)
            else if !decodes(b[h.start..h.end]) then d == Drained([], b, true)
            else
              var e := Drain(b[h.end..], decodes);
              d == e.(bodies := [b[h.start..h.end]] + e.bodies)
  {
  }

  // One turn of the loop: what is still to come after taking the head.
  lemma DrainTurn(b: Bytes, decodes: Bytes -> bool, taken: seq<Bytes>)
    ensures var (d, h) := (Drain(b, decodes), HeadOf(b));
            if h.Partial? then d == Drained([], b, false)
            else if h.NoLength? then d == Drain(b[h.next..], decodes)
            else if !decodes(b[h.start..h.end]) then d == Drained([], b, true)
            else
              var e := Drain(b[h.end..], decodes);
              d.rest == e.rest && d.stuck == e.stuck && taken + d.bodies == taken + [b[h.start..h.end]] + e.bodies
  {
    hide HeadOf, Drain;
    DrainHead(b, decodes);
  }

  // ---------------------------------------------------------------------------------
  // The client

  class Client {
    var buffer: Bytes
    var delivered: seq<Bytes>
    const decodes: Bytes -> bool

    constructor (decodes: Bytes -> bool)
      ensures buffer == [] && delivered == [] && this.decodes == decodes
    {
      buffer, delivered := [], [];
      this.decodes := decodes;
    }

    // Raises (threw) when a body does not decode, before that body leaves the buffer.
    method HandleData(chunk: Bytes) returns (threw: bool)
      modifies this
      ensures var d := Drain(old(buffer) + chunk, decodes);
              buffer == d.rest && delivered == old(delivered) + d.bodies && threw == d.stuck
    {
      hide IndexFrom, LengthFrom, MatchesAt, Drain;
      buffer := buffer + chunk;
      ghost var whole := Drain(buffer, decodes);
      ghost var taken: seq<Bytes> := [];
      while true
        invariant var d := Drain(buffer, decodes);
                  whole == d.(bodies := taken + d.bodies)
        invariant delivered == old(delivered) + taken
        decreases |buffer|
      {
        DrainTurn(buffer, decodes, taken);
        var marker := IndexFrom(buffer, 0, BLANK_LINE);
        if marker.None? {
          return false;
        }
        var header := buffer[..marker.value];
        var length := LengthFrom(header, 0);
        if length.None? {
          buffer := buffer[marker.value + 4..];
          continue;
        }
        var start := marker.value + 4;
        var end := start + length.value;
        if |buffer| < end {
          return false;
        }
        var body := buffer[start..end];
        if !decodes(body) {
          return true;
        }
        buffer := buffer[end..];
        delivered := delivered + [body];
        taken := taken + [body];
      }
    }
  }

  // ---------------------------------------------------------------------------------
  // Chunk invariance

  lemma {:induction false} IndexStable(b: Bytes, c: Bytes, i: nat, pattern: Bytes)
    requires i <= |b| && IndexFrom(b, i, pattern).Some?
    ensures IndexFrom(b + c, i, pattern) == IndexFrom(b, i, pattern)
    decreases |b| - i
  {
    if !MatchesAt(b, i, pattern) {
      IndexStable(b, c, i + 1, pattern);
      assert i + |pattern| <= |b| ==> (b + c)[i..i + |pattern|] == b[i..i + |pattern|];
    } else {
      assert (b + c)[i..i + |pattern|] == b[i..i + |pattern|];
    }
  }

  lemma HeadStable(b: Bytes, c: Bytes)
    requires !HeadOf(b).Partial?
    ensures HeadOf(b + c) == HeadOf(b)
  {
    IndexStable(b, c, 0, BLANK_LINE);
    var marker := IndexFrom(b, 0, BLANK_LINE).value;
    assert (b + c)[..marker] == b[..marker];
  }

  lemma SliceOfSum(b: Bytes, c: Bytes, start: nat, end: nat)
    requires start <= end <= |b|
    ensures (b + c)[start..end] == b[start..end] && (b + c)[end..] == b[end..] + c
  {
  }

  // Draining early loses nothing: what is left is drained with whatever comes next.
  lemma {:induction false} DrainAppend(b: Bytes, c: Bytes, decodes: Bytes -> bool)
    ensures var d, e := Drain(b, decodes), Drain(Drain(b, decodes).rest + c, decodes);
            Drain(b + c, decodes) == e.(bodies := d.bodies + e.bodies)
    decreases |b|
  {
    hide HeadOf, Drain;
    DrainHead(b, decodes);
    match HeadOf(b)
    case Partial =>
    case NoLength(next) =>
      HeadStable(b, c);
      DrainHead(b + c, decodes);
      DrainAppend(b[next..], c, decodes);
      SliceOfSum(b, c, next, next);
    case Message(start, end) =>
      HeadStable(b, c);
      DrainHead(b + c, decodes);
      SliceOfSum(b, c, start, end);
      if decodes(b[start..end]) {
        DrainAppend(b[end..], c, decodes);
      }
  }

  function Concat(chunks: seq<Bytes>): Bytes {
    if chunks == [] then [] else Concat(chunks[..|chunks| - 1]) + chunks[|chunks| - 1]
  }

  // The client's buffer and deliveries after a sequence of chunks.
  function Fed(chunks: seq<Bytes>, decodes: Bytes -> bool): (seq<Bytes>, Bytes) {
    if chunks == [] then ([], [])
    else
      var (bodies, buffer) := Fed(chunks[..|chunks| - 1], decodes);
      var d := Drain(buffer + chunks[|chunks| - 1], decodes);
      (bodies + d.bodies, d.rest)
  }

  // However a stream is cut into chunks, the same bodies come out and the same bytes stay.
  lemma {:induction false} ChunkInvariance(chunks: seq<Bytes>, decodes: Bytes -> bool)
    ensures var d := Drain(Concat(chunks), decodes);
            Fed(chunks, decodes) == (d.bodies, d.rest)
    decreases |chunks|
  {
    if chunks != [] {
      var before, last := chunks[..|chunks| - 1], chunks[|chunks| - 1];
      ChunkInvariance(before, decodes);
      DrainAppend(Concat(before), last, decodes);
    }
  }

  // A body that does not decode blocks the client: no later data is ever delivered.
  lemma StuckStaysStuck(b: Bytes, more: Bytes, decodes: Bytes -> bool)
    requires Drain(b, decodes).stuck
    ensures Drain(b + more, decodes).stuck && Drain(b + more, decodes).bodies == Drain(b, decodes).bodies
  {
    DrainAppend(b, more, decodes);
    StuckHead(b, decodes);
    StuckHeadStays(Drain(b, decodes).rest, more, decodes);
  }

  lemma {:induction false} StuckHead(b: Bytes, decodes: Bytes -> bool)
    requires Drain(b, decodes).stuck
    ensures Drain(Drain(b, decodes).rest, decodes) == Drained([], Drain(b, decodes).rest, true)
    decreases |b|
  {
    hide HeadOf;
    match HeadOf(b)
    case NoLength(next) => StuckHead(b[next..], decodes);
    case Message(start, end) =>
      if decodes(b[start..end]) {
        StuckHead(b[end..], decodes);
      }
    case _ =>
  }

  lemma StuckHeadStays(b: Bytes, more: Bytes, decodes: Bytes -> bool)
    requires Drain(b, decodes) == Drained([], b, true)
    ensures Drain(b + more, decodes) == Drained([], b + more, true)
  {
    hide HeadOf;
    HeadStable(b, more);
    var h := HeadOf(b);
    if h.Message? {
      assert (b + more)[h.start..h.end] == b[h.start..h.end];
    }
  }

  // ---------------------------------------------------------------------------------
  // Round trip

  function Decimal(n: nat): (digits: Bytes)
    ensures digits != [] && forall k | 0 <= k < |digits| :: IsDigit(digits[k])
  {
    if n < 10 then [48 + n] else Decimal(n / 10) + [48 + n % 10]
  }

  lemma {:induction false} NumberOfDecimal(n: nat)
    ensures Number(Decimal(n)) == n
  {
    if n >= 10 {
      NumberOfDecimal(n / 10);
      assert Decimal(n)[..|Decimal(n)| - 1] == Decimal(n / 10);
    }
  }

  function Header(n: nat): Bytes {
    SENT_FIELD + Decimal(n)
  }

  function Send(body: Bytes): Bytes {
    Header(|body|) + BLANK_LINE + body
  }

  lemma {:induction false} DigitsToEnd(h: Bytes, i: nat)
    requires i <= |h| && forall k | i <= k < |h| :: IsDigit(h[k])
    ensures DigitsEnd(h, i) == |h|
    decreases |h| - i
  {
    if i < |h| {
      DigitsToEnd(h, i + 1);
    }
  }

  lemma HeaderParses(n: nat)
    ensures LengthFrom(Header(n), 0) == Some(n)
  {
    var h, digits := Header(n), Decimal(n);
    assert forall k | 16 <= k < |h| :: h[k] == digits[k - 16];
    assert IsDigit(h[16]) && h[15] == 32;
    assert SkipSpaces(h, 16) == 16 && SkipSpaces(h, 15) == 16;
    DigitsToEnd(h, 16);
    assert forall k | 0 <= k < 15 :: Lower(h[k]) == FIELD[k];
    assert DigitsAfter(h, 0) == h[16..] == digits;
    NumberOfDecimal(n);
  }

  // The blank line that ends the header is the first one, whatever the body holds.
  lemma MarkerAfterHeader(body: Bytes, more: Bytes)
    ensures IndexFrom(Send(body) + more, 0, BLANK_LINE) == Some(|Header(|body|)|)
  {
    var h, b := Header(|body|), Send(body) + more;
    assert b[|h|..|h| + 4] == BLANK_LINE;
    assert MatchesAt(b, |h|, BLANK_LINE);
    forall i | 0 <= i < |h|
      ensures !MatchesAt(b, i, BLANK_LINE)
    {
      assert b[i] == h[i] != 13;
      if i + 4 <= |b| {
        assert b[i..i + 4][0] == b[i];
      }
    }
  }

  lemma SentHead(body: Bytes, more: Bytes)
    ensures var (h, b) := (|Header(|body|)| + 4, Send(body) + more);
            HeadOf(b) == Message(h, h + |body|) && b[h..h + |body|] == body && b[h + |body|..] == more
  {
    MarkerAfterHeader(body, more);
    HeaderParses(|body|);
    assert (Send(body) + more)[..|Header(|body|)|] == Header(|body|);
  }

  lemma SentDrains(body: Bytes, more: Bytes, decodes: Bytes -> bool)
    requires decodes(body)
    ensures var d := Drain(more, decodes);
            Drain(Send(body) + more, decodes) == d.(bodies := [body] + d.bodies)
  {
    hide HeadOf, Drain, Send;
    SentHead(body, more);
    DrainHead(Send(body) + more, decodes);
  }

  // A message whose body does not decode stops the client for good.
  lemma SentSticks(body: Bytes, more: Bytes, decodes: Bytes -> bool)
    requires !decodes(body)
    ensures Drain(Send(body) + more, decodes) == Drained([], Send(body) + more, true)
  {
    hide HeadOf, Drain, Send;
    SentHead(body, more);
    DrainHead(Send(body) + more, decodes);
  }

  lemma NothingDrains(decodes: Bytes -> bool)
    ensures Drain([], decodes) == Drained([], [], false)
  {
  }

  function SendAll(bodies: seq<Bytes>): Bytes {
    if bodies == [] then [] else Send(bodies[0]) + SendAll(bodies[1..])
  }

  // The bodies before the first that does not decode.
  function Decodable(bodies: seq<Bytes>, decodes: Bytes -> bool): (prefix: seq<Bytes>)
    ensures prefix <= bodies && forall k | 0 <= k < |prefix| :: decodes(prefix[k])
    ensures |prefix| < |bodies| ==> !decodes(bodies[|prefix|])
  {
    if bodies == [] || !decodes(bodies[0]) then [] else [bodies[0]] + Decodable(bodies[1..], decodes)
  }

  // Of any messages sent exactly the longest decodable prefix arrives, in order; everything
  // from the first body that does not decode stays in the buffer.
  lemma {:induction false} DeliveredExactly(bodies: seq<Bytes>, decodes: Bytes -> bool)
    ensures var n := |Decodable(bodies, decodes)|;
            Drain(SendAll(bodies), decodes) == Drained(bodies[..n], SendAll(bodies[n..]), n < |bodies|)
    decreases |bodies|
  {
    hide Send, Drain;
    if bodies == [] {
      NothingDrains(decodes);
    } else if decodes(bodies[0]) {
      var n := |Decodable(bodies[1..], decodes)|;
      DeliveredExactly(bodies[1..], decodes);
      SentDrains(bodies[0], SendAll(bodies[1..]), decodes);
      assert [bodies[0]] + bodies[1..][..n] == bodies[..n + 1] && bodies[1..][n..] == bodies[n + 1..];
    } else {
      SentSticks(bodies[0], SendAll(bodies[1..]), decodes);
    }
  }

  // So everything arrives exactly if every body decodes; bodies may hold any bytes at all.
  lemma RoundTrip(bodies: seq<Bytes>, decodes: Bytes -> bool)
    ensures Drain(SendAll(bodies), decodes) == Drained(bodies, [], false) <==> forall k | 0 <= k < |bodies| :: decodes(bodies[k])
    ensures Drain(SendAll(bodies), decodes).bodies == bodies <==> forall k | 0 <= k < |bodies| :: decodes(bodies[k])
  {
    hide Drain, Send;
    DeliveredExactly(bodies, decodes);
    var n := |Decodable(bodies, decodes)|;
    if n == |bodies| {
      assert bodies[..n] == bodies && bodies[n..] == [];
    }
  }

  // Put together: of messages cut into any chunks the longest decodable prefix arrives, and
  // what follows it stays in the buffer.
  lemma RoundTripInChunks(bodies: seq<Bytes>, chunks: seq<Bytes>, decodes: Bytes -> bool)
    requires Concat(chunks) == SendAll(bodies)
    ensures var n := |Decodable(bodies, decodes)|;
            Fed(chunks, decodes) == (bodies[..n], SendAll(bodies[n..]))
  {
    hide Drain, Send;
    ChunkInvariance(chunks, decodes);
    DeliveredExactly(bodies, decodes);
  }

  // ---------------------------------------------------------------------------------
  // Other headers

  // Position i starts a length: the field's name in any case, white space, and a digit.
  predicate LengthAt(h: Bytes, i: nat, first: nat) {
    && FieldAt(h, i) && i + |FIELD| <= first < |h| && IsDigit(h[first])
    && forall k | i + |FIELD| <= k < first :: IsSpace(h[k])
  }

  lemma {:induction false} SpacesSkipped(h: Bytes, i: nat, first: nat)
    requires i <= first <= |h| && (forall k | i <= k < first :: IsSpace(h[k])) && (first < |h| ==> !IsSpace(h[first]))
    ensures SkipSpaces(h, i) == first
    decreases first - i
  {
    if i < first {
      SpacesSkipped(h, i + 1, first);
    }
  }

  lemma {:induction false} SpacesEnd(h: Bytes, i: nat)
    requires i <= |h|
    ensures var j := SkipSpaces(h, i); (forall k | i <= k < j :: IsSpace(h[k])) && (j < |h| ==> !IsSpace(h[j]))
    decreases |h| - i
  {
    if i < |h| && IsSpace(h[i]) {
      SpacesEnd(h, i + 1);
    }
  }

  lemma {:induction false} DigitsAreMaximal(h: Bytes, i: nat)
    requires i <= |h|
    ensures var j := DigitsEnd(h, i); j < |h| ==> !IsDigit(h[j])
    decreases |h| - i
  {
    if i < |h| && IsDigit(h[i]) {
      DigitsAreMaximal(h, i + 1);
    }
  }

  ghost predicate StartsLength(h: Bytes, i: nat) {
    exists first: nat :: LengthAt(h, i, first)
  }

  // All the digits from there on.
  predicate AllDigits(h: Bytes, first: nat, digits: Bytes) {
    && first + |digits| <= |h| && digits == h[first..first + |digits|] && (forall k | 0 <= k < |digits| :: IsDigit(digits[k]))
    && (first + |digits| < |h| ==> !IsDigit(h[first + |digits|]))
  }

  lemma LengthStarts(h: Bytes, i: nat)
    requires i <= |h|
    ensures (FieldAt(h, i) && DigitsAfter(h, i) != []) <==> StartsLength(h, i)
    ensures StartsLength(h, i) ==> exists first: nat :: LengthAt(h, i, first) && AllDigits(h, first, DigitsAfter(h, i))
  {
    if FieldAt(h, i) {
      SpacesEnd(h, i + |FIELD|);
      var first := SkipSpaces(h, i + |FIELD|);
      DigitsAreMaximal(h, first);
      if DigitsAfter(h, i) != [] {
        assert IsDigit(DigitsAfter(h, i)[0]) && h[first] == DigitsAfter(h, i)[0];
        assert LengthAt(h, i, first) && AllDigits(h, first, DigitsAfter(h, i));
      }
      if StartsLength(h, i) {
        var other: nat :| LengthAt(h, i, other);
        SpacesSkipped(h, i + |FIELD|, other);
      }
    }
  }

  // The length of a header is all the digits of the first place that starts one; it has none
  // exactly if no place does.
  lemma {:induction false} LengthExactly(h: Bytes, i: nat)
    requires i <= |h|
    ensures LengthFrom(h, i).None? <==> forall j: nat | i <= j <= |h| :: !StartsLength(h, j)
    ensures LengthFrom(h, i).Some? ==>
              exists j: nat, first: nat, digits :: i <= j <= |h| && (forall k: nat | i <= k < j :: !StartsLength(h, k))
                && LengthAt(h, j, first) && AllDigits(h, first, digits) && LengthFrom(h, i) == Some(Number(digits))
    decreases |h| - i
  {
    hide LengthAt, DigitsAfter, Number;
    LengthStarts(h, i);
    if FieldAt(h, i) && DigitsAfter(h, i) != [] {
      var first: nat :| LengthAt(h, i, first) && AllDigits(h, first, DigitsAfter(h, i));
      assert LengthFrom(h, i) == Some(Number(DigitsAfter(h, i)));
    } else if i < |h| {
      LengthExactly(h, i + 1);
      if LengthFrom(h, i).Some? {
        var j: nat, first: nat, digits :| i + 1 <= j <= |h| && (forall k: nat | i + 1 <= k < j :: !StartsLength(h, k))
          && LengthAt(h, j, first) && AllDigits(h, first, digits) && LengthFrom(h, i + 1) == Some(Number(digits));
        assert forall k: nat | i <= k < j :: !StartsLength(h, k);
      }
    }
  }

  // A header without a length is dropped with its blank line, and what follows is read on.
  lemma HeaderWithoutLengthDropped(h: Bytes, more: Bytes, decodes: Bytes -> bool)
    requires IndexFrom(h + BLANK_LINE + more, 0, BLANK_LINE) == Some(|h|) && LengthFrom(h, 0).None?
    ensures Drain(h + BLANK_LINE + more, decodes) == Drain(more, decodes)
  {
    var b := h + BLANK_LINE + more;
    assert b[..|h|] == h && b[|h| + 4..] == more;
    DrainHead(b, decodes);
  }
}
