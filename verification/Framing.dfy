/** Length-delimited frames: a base-128 varint of the length, then the encoded message.
    Varints are those of the section "Base 128 Varints" of the Protocol Buffers encoding guide. */
module Framing {
  import opened Prelude
  import opened Division
  import Lists

  /** A protobuf message is at most 2 GiB long; half of that leaves room for the other fields. */
  type Body = b: Bytes | |b| < 0x4000_0000

  datatype Transaction = Transaction(version: u64, body: Body)

  /** The protobuf encoding of one transaction, which this model leaves open. */
  datatype Codec = Codec(encode: Transaction -> Bytes, decode: Bytes -> Option<Transaction>) {
    ghost predicate Faithful() {
      forall t :: decode(encode(t)) == Some(t) && |encode(t)| < U64_LIMIT
    }
  }

  // Varints.

  function Pow128(n: nat): (p: nat)
    ensures p > 0
  {
    if n == 0 then 1 else 128 * Pow128(n - 1)
  }

  function Varint(n: nat): (bytes: Bytes)
    ensures bytes != []
  {
    if n < 128 then [n] else [128 + n % 128] + Varint(n / 128)
  }

  datatype LengthRead = NoMore | Length(n: u64, rest: Bytes) | BadLength

  /** Reads the bytes from position `idx` of a length prefix on. The seven payload bits of each byte are
      disjoint from those before it, so adding them is or-ing them; bits beyond the 64th fall off. */
  function ReadVarintFrom(data: Bytes, idx: nat, low: u64): (r: LengthRead)
    requires idx <= 10
    ensures r.Length? ==> |r.rest| < |data|
    decreases 10 - idx, |data|
  {
    if idx == 10 then BadLength
    else if data == [] then if idx == 0 then NoMore else BadLength
    else
      var n := (low + data[0] % 128 * Pow128(idx)) % U64_LIMIT;
      if data[0] < 128 then Length(n, data[1..]) else ReadVarintFrom(data[1..], idx + 1, n)
  }

  function ReadVarint(data: Bytes): (r: LengthRead)
    ensures r.Length? ==> |r.rest| < |data|
  {
    ReadVarintFrom(data, 0, 0)
  }

  // Messages.

  datatype MessageRead = EndOfStream | Message(tx: Transaction, rest: Bytes) | Failed

  function ReadMessage(data: Bytes, codec: Codec): (r: MessageRead)
    ensures r.Message? ==> |r.rest| < |data|
  {
    match ReadVarint(data)
    case NoMore => EndOfStream
    case BadLength => Failed
    case Length(n, rest) =>
      if |rest| < n then Failed
      else
        match codec.decode(rest[..n])
        case None => Failed
        case Some(tx) => Message(tx, rest[n..])
  }

  datatype StreamRead = StreamRead(txs: seq<Transaction>, complete: bool)

  /** Everything a reader gets before the stream ends, and whether it ended between two messages. */
  function ReadAll(data: Bytes, codec: Codec): StreamRead
    decreases |data|
  {
    match ReadMessage(data, codec)
    case EndOfStream => StreamRead([], true)
    case Failed => StreamRead([], false)
    case Message(tx, rest) =>
      var later := ReadAll(rest, codec);
      StreamRead([tx] + later.txs, later.complete)
  }

  function Frame(tx: Transaction, codec: Codec): (bytes: Bytes)
    ensures bytes != []
  {
    Varint(|codec.encode(tx)|) + codec.encode(tx)
  }

  function Frames(txs: seq<Transaction>, codec: Codec): Bytes {
    if txs == [] then [] else Frames(txs[..|txs| - 1], codec) + Frame(txs[|txs| - 1], codec)
  }

  class Reader {
    const data: Bytes
    var pos: nat

    ghost predicate Valid()
      reads this
    {
      pos <= |data|
    }

    ghost function Remaining(): Bytes
      reads this
      requires Valid()
    {
      data[pos..]
    }

    constructor (data: Bytes)
      ensures Valid() && Remaining() == data
    {
      this.data, pos := data, 0;
    }

    method ReadExact(n: nat) returns (bytes: Option<Bytes>)
      requires Valid()
      modifies this
      ensures Valid()
      ensures bytes == if n <= |old(Remaining())| then Some(old(Remaining())[..n]) else None
      ensures bytes.Some? ==> Remaining() == old(Remaining())[n..]
    {
      if n <= |data| - pos {
        assert data[pos..][..n] == data[pos..pos + n] && data[pos..][n..] == data[pos + n..];
        bytes := Some(data[pos..pos + n]);
        pos := pos + n;
      } else {
        bytes := None;
      }
    }

    method ReadVarintLen() returns (r: Result<Option<u64>, string>)
      requires Valid()
      modifies this
      ensures Valid()
      ensures match ReadVarint(old(Remaining()))
              case NoMore => r == Ok(None)
              case BadLength => r.Err?
              case Length(n, rest) => r == Ok(Some(n)) && Remaining() == rest
    {
      var len: u64 := 0;
      for idx := 0 to 10
        invariant Valid()
        invariant ReadVarintFrom(Remaining(), idx, len) == ReadVarint(old(Remaining()))
      {
        var byte := ReadExact(1);
        if byte.None? {
          return if idx == 0 then Ok(None) else Err("truncated protobuf length prefix");
        }
        len := (len + byte.value[0] % 128 * Pow128(idx)) % U64_LIMIT;
        if byte.value[0] < 128 {
          return Ok(Some(len));
        }
      }
      return Err("protobuf length prefix exceeds 10 bytes");
    }

    method ReadNext(codec: Codec) returns (r: Result<Option<Transaction>, string>)
      requires Valid()
      modifies this
      ensures Valid()
      ensures match ReadMessage(old(Remaining()), codec)
              case EndOfStream => r == Ok(None)
              case Failed => r.Err?
              case Message(tx, rest) => r == Ok(Some(tx)) && Remaining() == rest
    {
      var len := ReadVarintLen();
      if len.Err? {
        return Err(len.error);
      }
      if len.value.None? {
        return Ok(None);
      }
      var buffer := ReadExact(len.value.value);
      if buffer.None? {
        return Err("failed to fill whole buffer");
      }
      var tx := codec.decode(buffer.value);
      return if tx.Some? then Ok(Some(tx.value)) else Err("undecodable transaction");
    }
  }

  datatype RawReport = RawReport(count: nat, firstVersion: Option<u64>, lastVersion: Option<u64>,
                                 nextStartVersion: Option<u64>, truncated: bool, stoppedAtLimit: bool)

  function CheckedAdd1(version: u64): Option<u64> {
    if version < U64_MAX then Some(version + 1) else None
  }

  function ReportOf(txs: seq<Transaction>, truncated: bool, limit: u64): RawReport {
    var last := if txs == [] then None else Some(txs[|txs| - 1].version);
    RawReport(|txs|, if txs == [] then None else Some(txs[0].version), last,
              if last.Some? then CheckedAdd1(last.value) else None, truncated, |txs| == limit)
  }

  /** What a reader that has returned `seen` and stands before `remaining` makes of the whole stream. */
  ghost predicate ReadSoFar(read: StreamRead, seen: seq<Transaction>, remaining: Bytes, codec: Codec) {
    var later := ReadAll(remaining, codec);
    read.txs == seen + later.txs && read.complete == later.complete
  }

  lemma ReadOneMore(read: StreamRead, seen: seq<Transaction>, remaining: Bytes, codec: Codec)
    requires ReadSoFar(read, seen, remaining, codec)
    ensures match ReadMessage(remaining, codec)
            case EndOfStream => read == StreamRead(seen, true)
            case Failed => read == StreamRead(seen, false)
            case Message(tx, rest) => ReadSoFar(read, seen + [tx], rest, codec)
  {
  }

  /** The read loop: counts messages until the limit, the end or an error. */
  method CountMessages(data: Bytes, codec: Codec, limit: u64)
    returns (count: nat, first: Option<u64>, last: Option<u64>, error: Option<string>, ghost seen: seq<Transaction>)
    ensures count == |seen|
    ensures first == if seen == [] then None else Some(seen[0].version)
    ensures last == if seen == [] then None else Some(seen[|seen| - 1].version)
    ensures error.Some? ==> count < limit && ReadAll(data, codec) == StreamRead(seen, false)
    ensures error.None? && count < limit ==> ReadAll(data, codec) == StreamRead(seen, true)
    ensures error.None? && count >= limit ==> count == limit && seen <= ReadAll(data, codec).txs
  {
    var reader := new Reader(data);
    count, first, last, error, seen := 0, None, None, None, [];
    ghost var read := ReadAll(data, codec);
    assert read.txs == [] + read.txs;
    while count < limit
      invariant reader.Valid() && fresh(reader)
      invariant count == |seen| <= limit && error.None?
      invariant ReadSoFar(read, seen, reader.Remaining(), codec)
      invariant first == if seen == [] then None else Some(seen[0].version)
      invariant last == if seen == [] then None else Some(seen[|seen| - 1].version)
      decreases limit - count
    {
      ReadOneMore(read, seen, reader.Remaining(), codec);
      var next := reader.ReadNext(codec);
      if next.Err? {
        error := Some(next.error);
        return;
      }
      if next.value.None? {
        return;
      }
      var tx := next.value.value;
      if first.None? {
        first := Some(tx.version);
      }
      last := Some(tx.version);
      count := count + 1;
      seen := seen + [tx];
    }
  }

  /** Reports on the messages of a chunk, at most `limit` of them; with `allowTruncated` a broken end
      ends the report instead of failing it. */
  method InspectRaw(data: Bytes, codec: Codec, limit: u64, allowTruncated: bool) returns (r: Result<RawReport, string>)
    ensures
      var read := ReadAll(data, codec);
      var broken := !read.complete && |read.txs| < limit;
      if broken && !allowTruncated then r.Err?
      else r == Ok(ReportOf(if limit < |read.txs| then read.txs[..limit] else read.txs, broken, limit))
  {
    var count, first, last, error, seen := CountMessages(data, codec, limit);
    if error.Some? && !allowTruncated {
      return Err(error.value);
    }
    var next := if last.Some? then CheckedAdd1(last.value) else None;
    r := Ok(RawReport(count, first, last, next, error.Some?, count == limit));
  }

  // Round trip.

  lemma {:induction false} Pow128Bound(idx: nat)
    requires idx >= 10
    ensures Pow128(idx) >= U64_LIMIT
    decreases idx
  {
    if idx == 10 {
      assert Pow128(5) == 0x8_0000_0000;
      assert Pow128(10) == 128 * Pow128(9) == 128 * 128 * Pow128(8) == 128 * 128 * 128 * Pow128(7);
    } else {
      Pow128Bound(idx - 1);
    }
  }

  lemma VarintStep(n: nat, idx: nat, low: nat)
    ensures low + n * Pow128(idx) == low + n % 128 * Pow128(idx) + n / 128 * Pow128(idx + 1)
  {
    var p := Pow128(idx);
    assert n == n / 128 * 128 + n % 128;
    assert n * p == n / 128 * (128 * p) + n % 128 * p;
  }

  lemma VarintFits(n: nat, idx: nat, low: u64)
    requires n > 0 && low + n * Pow128(idx) < U64_LIMIT
    ensures idx < 10
  {
    if idx >= 10 {
      Pow128Bound(idx);
      AtLeast(n, Pow128(idx));
    }
  }

  lemma AtLeast(n: nat, p: nat)
    requires n > 0
    ensures n * p >= p
  {
    assert (n - 1) * p >= 0;
  }

  /** One byte of a length prefix moves its seven bits into place. */
  lemma VarintByte(n: nat, idx: nat, low: u64)
    requires low + n * Pow128(idx) < U64_LIMIT
    ensures
      var next := low + n % 128 * Pow128(idx);
      next < U64_LIMIT && next + n / 128 * Pow128(idx + 1) == low + n * Pow128(idx)
  {
    VarintStep(n, idx, low);
    assert n / 128 * Pow128(idx + 1) >= 0;
    assert n % 128 * Pow128(idx) >= 0;
  }

  /** The reader's step over the first byte of a length prefix. */
  lemma ReadOneByte(n: nat, rest: Bytes, idx: nat, low: u64, next: u64)
    requires idx < 10 && next == low + n % 128 * Pow128(idx)
    ensures ReadVarintFrom(Varint(n) + rest, idx, low) ==
            if n < 128 then Length(next, rest) else ReadVarintFrom(Varint(n / 128) + rest, idx + 1, next)
  {
    var data := Varint(n) + rest;
    assert data[0] % 128 == n % 128;
    if n < 128 {
      assert data[1..] == rest;
    } else {
      assert data[1..] == Varint(n / 128) + rest;
    }
  }

  /** A length prefix reads back as the length, wherever in the prefix the reader stands. */
  lemma {:induction false} VarintReads(n: nat, rest: Bytes, idx: nat, low: u64)
    requires idx < 10 && low + n * Pow128(idx) < U64_LIMIT
    ensures ReadVarintFrom(Varint(n) + rest, idx, low) == Length(low + n * Pow128(idx), rest)
    decreases n
  {
    VarintByte(n, idx, low);
    var next := low + n % 128 * Pow128(idx);
    ReadOneByte(n, rest, idx, low, next);
    if n >= 128 {
      VarintFits(n / 128, idx + 1, next);
      VarintReads(n / 128, rest, idx + 1, next);
    }
  }

  // Any prefix, however it was written.

  /** Seven bits a byte, the least significant first. */
  function Payload(bytes: Bytes): nat {
    if bytes == [] then 0 else bytes[0] % 128 + 128 * Payload(bytes[1..])
  }

  lemma WrapLater(x: nat, y: nat, m: nat)
    requires m > 0
    ensures (x % m + y) % m == (x + y) % m
  {
    var z, q := x % m + y, x / m;
    assert x == q * m + x % m && z == z / m * m + z % m;
    assert (z / m + q) * m == z / m * m + q * m;
    DivisionUnique(x + y, m, z / m + q, z % m);
  }

  lemma MoveSeven(digit: nat, rest: nat, p: nat)
    ensures (digit + 128 * rest) * p == digit * p + rest * (128 * p)
  {
  }

  lemma PayloadStep(bytes: Bytes, p: nat, low: nat)
    requires bytes != []
    ensures low + Payload(bytes) * p == low + bytes[0] % 128 * p + Payload(bytes[1..]) * (128 * p)
  {
    MoveSeven(bytes[0] % 128, Payload(bytes[1..]), p);
  }

  /** A prefix that ends with its k-th byte reads as its payload, as far as that fits in 64 bits. */
  lemma {:induction false} PrefixReadsFrom(data: Bytes, k: nat, idx: nat, low: u64)
    requires k < |data| && idx + k < 10 && data[k] < 128 && forall i :: 0 <= i < k ==> data[i] >= 128
    ensures ReadVarintFrom(data, idx, low) ==
            Length((low + Payload(data[..k + 1]) * Pow128(idx)) % U64_LIMIT, data[k + 1..])
    decreases k
  {
    var bytes, p := data[..k + 1], Pow128(idx);
    var first := low + data[0] % 128 * p;
    PayloadStep(bytes, p, low);
    if k == 0 {
      assert bytes[1..] == [];
    } else {
      assert bytes[1..] == data[1..][..k] && data[1..][k..] == data[k + 1..];
      PrefixReadsFrom(data[1..], k - 1, idx + 1, first % U64_LIMIT);
      WrapLater(first, Payload(bytes[1..]) * (128 * p), U64_LIMIT);
    }
  }

  lemma {:induction false} NoLastByte(data: Bytes, idx: nat, low: u64)
    requires idx <= 10 && forall i :: 0 <= i < |data| && idx + i < 10 ==> data[i] >= 128
    ensures ReadVarintFrom(data, idx, low) == if data == [] && idx == 0 then NoMore else BadLength
    decreases 10 - idx
  {
    if idx < 10 && data != [] {
      NoLastByte(data[1..], idx + 1, (low + data[0] % 128 * Pow128(idx)) % U64_LIMIT);
    }
  }

  /** What a length prefix reads as: its payload, if one of its first ten bytes is its last; nothing, if there are no
      bytes; otherwise it is bad. */
  lemma PrefixReads(data: Bytes, k: nat)
    requires k <= |data| && k <= 10 && forall i :: 0 <= i < k ==> data[i] >= 128
    ensures k < |data| && k < 10 && data[k] < 128 ==>
              ReadVarint(data) == Length(Payload(data[..k + 1]) % U64_LIMIT, data[k + 1..])
    ensures k == |data| || k == 10 ==> ReadVarint(data) == if data == [] then NoMore else BadLength
  {
    if k < |data| && k < 10 && data[k] < 128 {
      PrefixReadsFrom(data, k, 0, 0);
    }
    if k == |data| || k == 10 {
      NoLastByte(data, 0, 0);
    }
  }

  lemma {:induction false} VarintCut(n: nat, k: nat, idx: nat, low: u64)
    requires k < |Varint(n)| && idx <= 10 && (k > 0 || idx > 0)
    ensures ReadVarintFrom(Varint(n)[..k], idx, low) == BadLength
    decreases n
  {
    if k > 0 && idx < 10 {
      var data := Varint(n)[..k];
      assert n >= 128 && data[0] >= 128;
      assert data[1..] == Varint(n / 128)[..k - 1];
      VarintCut(n / 128, k - 1, idx + 1, (low + data[0] % 128 * Pow128(idx)) % U64_LIMIT);
    }
  }

  lemma FrameReads(tx: Transaction, rest: Bytes, codec: Codec)
    requires codec.Faithful()
    ensures ReadMessage(Frame(tx, codec) + rest, codec) == Message(tx, rest)
  {
    var body := codec.encode(tx);
    assert Pow128(0) == 1;
    VarintReads(|body|, body + rest, 0, 0);
    assert Frame(tx, codec) + rest == Varint(|body|) + (body + rest);
    assert (body + rest)[..|body|] == body && (body + rest)[|body|..] == rest;
  }

  /** A frame cut anywhere inside fails to read. */
  lemma FrameCut(tx: Transaction, k: nat, codec: Codec)
    requires codec.Faithful() && 0 < k < |Frame(tx, codec)|
    ensures ReadMessage(Frame(tx, codec)[..k], codec) == Failed
  {
    var body := codec.encode(tx);
    var prefix := Varint(|body|);
    if k < |prefix| {
      assert Frame(tx, codec)[..k] == prefix[..k];
      VarintCut(|body|, k, 0, 0);
    } else {
      assert Pow128(0) == 1;
      assert Frame(tx, codec)[..k] == prefix + body[..k - |prefix|];
      VarintReads(|body|, body[..k - |prefix|], 0, 0);
    }
  }

  lemma {:induction false} FramesAppend(a: seq<Transaction>, b: seq<Transaction>, codec: Codec)
    ensures Frames(a + b, codec) == Frames(a, codec) + Frames(b, codec)
  {
    if b == [] {
      assert a + b == a;
    } else {
      var init, last := b[..|b| - 1], Frame(b[|b| - 1], codec);
      assert (a + b)[..|a + b| - 1] == a + init;
      FramesAppend(a, init, codec);
      Lists.AppendAssociative(Frames(a, codec), Frames(init, codec), last);
    }
  }

  lemma OneFrameReads(tx: Transaction, rest: Bytes, codec: Codec)
    requires codec.Faithful()
    ensures
      var later := ReadAll(rest, codec);
      ReadAll(Frame(tx, codec) + rest, codec) == StreamRead([tx] + later.txs, later.complete)
  {
    FrameReads(tx, rest, codec);
  }

  /** Whole frames read back one by one, whatever follows them. */
  lemma {:induction false} WholeFramesRead(txs: seq<Transaction>, rest: Bytes, codec: Codec)
    requires codec.Faithful()
    ensures
      var later := ReadAll(rest, codec);
      ReadAll(Frames(txs, codec) + rest, codec) == StreamRead(txs + later.txs, later.complete)
  {
    var later := ReadAll(rest, codec);
    if txs == [] {
      assert Frames(txs, codec) + rest == rest;
      assert txs + later.txs == later.txs;
    } else {
      var init, last := txs[..|txs| - 1], txs[|txs| - 1];
      OneFrameReads(last, rest, codec);
      Lists.AppendAssociative(Frames(init, codec), Frame(last, codec), rest);
      WholeFramesRead(init, Frame(last, codec) + rest, codec);
      Lists.MoveLast(txs, later.txs);
    }
  }

  /** Bytes that stop inside a frame hold no message. */
  lemma PartialFrameReads(tx: Transaction, k: nat, codec: Codec)
    requires codec.Faithful() && k < |Frame(tx, codec)|
    ensures ReadAll(Frame(tx, codec)[..k], codec) == StreamRead([], k == 0)
  {
    if k > 0 {
      FrameCut(tx, k, codec);
    }
  }

  lemma FramesAt(txs: seq<Transaction>, n: nat, codec: Codec)
    requires n < |txs|
    ensures Frames(txs[..n + 1], codec) == Frames(txs[..n], codec) + Frame(txs[n], codec)
    ensures Frames(txs, codec) == Frames(txs[..n + 1], codec) + Frames(txs[n + 1..], codec)
  {
    assert txs[..n + 1][..n] == txs[..n];
    assert txs == txs[..n + 1] + txs[n + 1..];
    FramesAppend(txs[..n + 1], txs[n + 1..], codec);
  }

  lemma CutMiddle(a: Bytes, b: Bytes, c: Bytes, k: nat)
    requires |a| <= k <= |a| + |b|
    ensures (a + b + c)[..k] == a + b[..k - |a|]
  {
  }

  lemma CutStream(txs: seq<Transaction>, k: nat, fit: nat, codec: Codec)
    requires fit < |txs| && |Frames(txs[..fit], codec)| <= k < |Frames(txs[..fit + 1], codec)|
    ensures
      var cut := k - |Frames(txs[..fit], codec)|;
      && cut < |Frame(txs[fit], codec)| && k <= |Frames(txs, codec)|
      && Frames(txs, codec)[..k] == Frames(txs[..fit], codec) + Frame(txs[fit], codec)[..cut]
  {
    FramesAt(txs, fit, codec);
    CutMiddle(Frames(txs[..fit], codec), Frame(txs[fit], codec), Frames(txs[fit + 1..], codec), k);
  }

  lemma FramesThenPartReads(txs: seq<Transaction>, tx: Transaction, cut: nat, codec: Codec)
    requires codec.Faithful() && cut < |Frame(tx, codec)|
    ensures ReadAll(Frames(txs, codec) + Frame(tx, codec)[..cut], codec) == StreamRead(txs, cut == 0)
  {
    PartialFrameReads(tx, cut, codec);
    WholeFramesRead(txs, Frame(tx, codec)[..cut], codec);
    assert txs + [] == txs;
  }

  /** Cutting a stream of frames after `k` bytes leaves exactly the frames that fit, and the reader
      ends cleanly only when the cut falls between two frames. */
  lemma TruncatedStreamReads(txs: seq<Transaction>, k: nat, fit: nat, codec: Codec)
    requires codec.Faithful() && k <= |Frames(txs, codec)|
    requires fit <= |txs| && |Frames(txs[..fit], codec)| <= k
    requires fit < |txs| ==> k < |Frames(txs[..fit + 1], codec)|
    ensures ReadAll(Frames(txs, codec)[..k], codec) == StreamRead(txs[..fit], k == |Frames(txs[..fit], codec)|)
  {
    if fit == |txs| {
      assert txs[..fit] == txs;
      assert Frames(txs, codec)[..k] == Frames(txs, codec);
      FramesRoundTrip(txs, codec);
    } else {
      CutStream(txs, k, fit, codec);
      FramesThenPartReads(txs[..fit], txs[fit], k - |Frames(txs[..fit], codec)|, codec);
    }
  }

  /** Every cut has its number of whole frames. */
  lemma {:induction false} SomeFramesFit(txs: seq<Transaction>, k: nat, codec: Codec) returns (fit: nat)
    requires k <= |Frames(txs, codec)|
    ensures fit <= |txs| && |Frames(txs[..fit], codec)| <= k
    ensures fit < |txs| ==> k < |Frames(txs[..fit + 1], codec)|
  {
    if k == |Frames(txs, codec)| {
      fit := |txs|;
      assert txs[..fit] == txs;
    } else {
      var init := txs[..|txs| - 1];
      if |Frames(init, codec)| <= k {
        fit := |txs| - 1;
        assert txs[..fit + 1] == txs;
      } else {
        fit := SomeFramesFit(init, k, codec);
        assert txs[..fit] == init[..fit] && (fit < |init| ==> txs[..fit + 1] == init[..fit + 1]);
        if fit == |init| {
          assert init[..fit] == init;
        }
      }
    }
  }

  /** Reading back what was framed returns exactly the messages, then the end of the stream. */
  lemma FramesRoundTrip(txs: seq<Transaction>, codec: Codec)
    requires codec.Faithful()
    ensures ReadAll(Frames(txs, codec), codec) == StreamRead(txs, true)
  {
    WholeFramesRead(txs, [], codec);
    assert Frames(txs, codec) + [] == Frames(txs, codec);
    assert txs + [] == txs;
  }

  // The assumption on codecs can be met.

  lemma {:induction false} VarintLength(n: nat, k: nat)
    requires k > 0 && n < Pow128(k)
    ensures |Varint(n)| <= k
    decreases n
  {
    if n >= 128 {
      assert Pow128(0) == 1;
      VarintLength(n / 128, k - 1);
    }
  }

  /** The version as a varint, then the body. */
  const PLAIN_CODEC: Codec :=
    Codec((t: Transaction) => Varint(t.version) + t.body,
          (b: Bytes) => match ReadVarint(b)
                        case Length(n, rest) => if |rest| < 0x4000_0000 then Some(Transaction(n, rest)) else None
                        case _ => None)

  lemma FaithfulCodecExists()
    ensures PLAIN_CODEC.Faithful()
  {
    forall t: Transaction
      ensures PLAIN_CODEC.decode(PLAIN_CODEC.encode(t)) == Some(t) && |PLAIN_CODEC.encode(t)| < U64_LIMIT
    {
      assert Pow128(0) == 1;
      VarintReads(t.version, t.body, 0, 0);
      Pow128Bound(10);
      VarintLength(t.version, 10);
    }
  }
}
