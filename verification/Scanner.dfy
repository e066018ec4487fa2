/** What the malware scanner client sends to `clamd`, read back by the protocol's own rules. */
module Scanner {
  import opened IsoTime
  import opened Text

  type Byte = b: int | 0 <= b < 256

  const CHUNK := 65_536

  /** "zINSTREAM" and a zero byte. */
  const COMMAND: seq<Byte> := [122, 73, 78, 83, 84, 82, 69, 65, 77, 0]

  // ---------------------------------------------------------------- the receiver

  function BigEndian(bytes: seq<Byte>): nat
    requires |bytes| == 4
  {
    16_777_216 * (bytes[0] as int) + 65_536 * (bytes[1] as int) + 256 * (bytes[2] as int) + bytes[3]
  }

  /** Reads length-prefixed chunks up to the one of length zero: their lengths, their content, and what
      follows on the stream. */
  datatype Read = Broken | Read(lengths: seq<nat>, data: seq<Byte>, rest: seq<Byte>)

  function Decode(stream: seq<Byte>): Read
    decreases |stream|
  {
    if |stream| < 4 then Broken
    else
      var n := BigEndian(stream[..4]);
      if n == 0 then Read([], [], stream[4..])
      else if |stream| < 4 + n then Broken
      else
        match Decode(stream[4 + n..])
        case Broken => Broken
        case Read(lengths, data, rest) => Read([n] + lengths, stream[4..4 + n] + data, rest)
  }

  // ---------------------------------------------------------------- the sender

  /** `n.to_bytes(4, "big")`, which raises from 2 ** 32 on. */
  function ToBytes(n: nat): seq<Byte>
    requires n < 0x1_0000_0000
  {
    [n / 16_777_216, n / 65_536 % 256, n / 256 % 256, n % 256]
  }

  function Frame(chunk: seq<Byte>): seq<Byte>
    requires |chunk| <= CHUNK
  {
    ToBytes(|chunk|) + chunk
  }

  function Least(a: nat, b: nat): nat {
    if a < b then a else b
  }

  /** The frames of the data and the terminator. */
  function Encode(data: seq<Byte>): seq<Byte> {
    if data == [] then [0, 0, 0, 0]
    else
      var n := Least(|data|, CHUNK);
      Frame(data[..n]) + Encode(data[n..])
  }

  lemma BytesRoundTrip(n: nat)
    requires n < 0x1_0000_0000
    ensures BigEndian(ToBytes(n)) == n
  {
    assert n / 65_536 / 256 == n / 16_777_216 && n / 256 / 256 == n / 65_536;
  }

  /** The lengths of the chunks: all full but the last, which is not empty. */
  predicate Lengths(lengths: seq<nat>, total: nat) {
    if total == 0 then lengths == []
    else lengths != [] && lengths[0] == Least(total, CHUNK) && Lengths(lengths[1..], total - lengths[0])
  }

  /** The receiver takes one whole frame off the stream. */
  lemma DecodeFrame(chunk: seq<Byte>, tail: seq<Byte>)
    requires 1 <= |chunk| <= CHUNK
    ensures Decode(Frame(chunk) + tail) ==
            match Decode(tail) case Broken => Broken case Read(lengths, data, rest) => Read([|chunk|] + lengths, chunk + data, rest)
  {
    var n := |chunk|;
    var stream := Frame(chunk) + tail;
    BytesRoundTrip(n);
    assert stream[..4] == ToBytes(n);
    assert stream[4..4 + n] == chunk;
    assert stream[4 + n..] == tail;
  }

  lemma DecodeEnd(rest: seq<Byte>)
    ensures Decode(Encode([]) + rest) == Read([], [], rest) && Lengths([], 0)
  {
    var stream := Encode([]) + rest;
    assert stream[..4] == [0, 0, 0, 0] && stream[4..] == rest;
  }

  /** The receiver gets the data back whatever it is and whatever follows it. */
  lemma {:induction false} FramingRoundTrip(data: seq<Byte>, rest: seq<Byte>)
    ensures var r := Decode(Encode(data) + rest);
            r.Read? && r.data == data && r.rest == rest && Lengths(r.lengths, |data|)
    decreases |data|
  {
    hide Decode, Encode, Lengths;
    if data == [] {
      DecodeEnd(rest);
    } else {
      var n := Least(|data|, CHUNK);
      FirstFrame(data, n);
      FramingRoundTrip(data[n..], rest);
      DecodeFrame(data[..n], Encode(data[n..]) + rest);
      assert Encode(data) + rest == Frame(data[..n]) + (Encode(data[n..]) + rest);
      FirstLength(n, Decode(Encode(data[n..]) + rest).lengths, |data|);
      assert data[..n] + data[n..] == data;
    }
  }

  lemma FirstFrame(data: seq<Byte>, n: nat)
    requires data != [] && n == Least(|data|, CHUNK)
    ensures Encode(data) == Frame(data[..n]) + Encode(data[n..])
  {}

  lemma FirstLength(n: nat, lengths: seq<nat>, total: nat)
    requires total > 0 && n == Least(total, CHUNK) && Lengths(lengths, total - n)
    ensures Lengths([n] + lengths, total)
  {
    assert ([n] + lengths)[1..] == lengths;
  }

  /** No chunk is empty, which would end the stream early, or too long for its four bytes; there are as
      few as fit. */
  lemma {:induction false} ChunkBounds(lengths: seq<nat>, total: nat)
    requires Lengths(lengths, total)
    ensures forall n <- lengths :: 1 <= n <= 65_536
    ensures |lengths| == (total + 65_535) / 65_536
    decreases |lengths|
  {
    if total > 0 {
      ChunkBounds(lengths[1..], total - lengths[0]);
      assert lengths == [lengths[0]] + lengths[1..];
    }
  }

  // ---------------------------------------------------------------- scan

  datatype Verdict = Clean | Detected | Unavailable

  predicate EndsWith(s: string, suffix: string) {
    |suffix| <= |s| && s[|s| - |suffix|..] == suffix
  }

  predicate StartsWith(s: string, part: string) {
    |part| <= |s| && s[..|part|] == part
  }

  predicate Contains(s: string, part: string) {
    StartsWith(s, part) || (s != "" && Contains(s[1..], part))
  }

  /** A text ends with a part, or contains it, iff it is made of that part and what stands around it. */
  lemma EndsWithIff(s: string, suffix: string)
    ensures EndsWith(s, suffix) <==> exists before :: s == before + suffix
  {
    if EndsWith(s, suffix) { assert s == s[..|s| - |suffix|] + suffix; }
  }

  lemma {:induction false} ContainsIff(s: string, part: string)
    ensures Contains(s, part) <==> exists before, after :: s == before + part + after
    decreases |s|
  {
    if StartsWith(s, part) {
      assert s == "" + part + s[|part|..];
    } else if s != "" {
      ContainsIff(s[1..], part);
      if before, after :| s[1..] == before + part + after { assert s == ([s[0]] + before) + part + after; }
      if before, after :| s == before + part + after {
        assert before != [];
        assert s[1..] == before[1..] + part + after;
      }
    }
  }

  /** `scan`; `reply` is absent when the connection fails or the answer is not UTF-8. The receiver sees
      exactly the data, and only an explicit confirmation lets it pass. */
  method Scan(data: seq<Byte>, reply: Option<string>) returns (sent: seq<Byte>, verdict: Verdict)
    ensures COMMAND <= sent && Decode(sent[|COMMAND|..]).Read?
    ensures Decode(sent[|COMMAND|..]).data == data && Decode(sent[|COMMAND|..]).rest == [] && Lengths(Decode(sent[|COMMAND|..]).lengths, |data|)
    ensures verdict.Clean? <==> reply.Some? && EndsWith(Strip(reply.value), "stream: OK")
    ensures verdict.Detected? <==> reply.Some? && !EndsWith(Strip(reply.value), "stream: OK") && Contains(Strip(reply.value), "FOUND")
  {
    hide Decode, Encode, Strip, Contains, Lengths;
    sent := COMMAND;
    var offset := 0;
    while offset < |data|
      invariant 0 <= offset && sent + Encode(data[Least(offset, |data|)..]) == COMMAND + Encode(data)
    {
      var end := Least(offset + CHUNK, |data|);
      var chunk := data[offset..end];
      ghost var left := data[offset..];
      FirstFrame(left, end - offset);
      assert left[..end - offset] == chunk && left[end - offset..] == data[end..];
      assert sent + (ToBytes(|chunk|) + chunk) + Encode(data[end..]) == sent + Encode(left);
      sent := sent + (ToBytes(|chunk|) + chunk);
      offset := offset + CHUNK;
    }
    NothingLeft(data);
    sent := sent + [0, 0, 0, 0];
    assert sent[|COMMAND|..] == Encode(data) + [];
    FramingRoundTrip(data, []);
    if reply.None? {
      return sent, Unavailable;
    }
    var message := Strip(reply.value);
    if EndsWith(message, "stream: OK") {
      return sent, Clean;
    }
    verdict := if Contains(message, "FOUND") then Detected else Unavailable;
  }

  lemma NothingLeft(data: seq<Byte>)
    ensures Encode(data[|data|..]) == [0, 0, 0, 0]
  {}
}
