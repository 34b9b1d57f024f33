/**
 The length-prefixed record log: each record is a 64-bit little-endian length
 followed by that many bytes. The reader bounds the length it accepts; the
 writer does not.
 */
module RecordLog {
  import opened Basics

  newtype byte = b: int | 0 <= b < 0x100

  const HEADER := 8
  const MAX_RECORD_BYTES := 64 * 1024 * 1024
  const U64 := 0x1_0000_0000_0000_0000

  datatype ReadError = TooLong(length: nat) | Torn | Undecodable

  // ---- Little-endian lengths ------------------------------------------------

  function ToLe(n: nat, width: nat): (r: seq<byte>)
    ensures |r| == width
  {
    if width == 0 then [] else [(n % 0x100) as byte] + ToLe(n / 0x100, width - 1)
  }

  function FromLe(bytes: seq<byte>): nat {
    if bytes == [] then 0 else bytes[0] as nat + 0x100 * FromLe(bytes[1..])
  }

  function Power256(width: nat): nat {
    if width == 0 then 1 else 0x100 * Power256(width - 1)
  }

  lemma {:induction false} LeRoundTrip(n: nat, width: nat)
    requires n < Power256(width)
    ensures FromLe(ToLe(n, width)) == n
  {
    if width != 0 {
      LeRoundTrip(n / 0x100, width - 1);
      assert ToLe(n, width)[1..] == ToLe(n / 0x100, width - 1);
    }
  }

  lemma HeaderRoundTrip(n: nat)
    requires n < U64
    ensures FromLe(ToLe(n, HEADER)) == n
  {
    assert Power256(8) == U64 by {
      assert Power256(4) == 0x1_0000_0000;
      assert Power256(6) == 0x1_0000_0000_0000;
    }
    LeRoundTrip(n, HEADER);
  }

  /** The low end comes first: the byte at position `i` weighs 256 to the `i`. */
  lemma {:induction false} ByteWeighs(b: byte, i: nat, more: nat)
    ensures FromLe(Repeat(0, i) + [b] + Repeat(0, more)) == b as nat * Power256(i)
  {
    var bytes := Repeat(0 as byte, i) + [b] + Repeat(0, more);
    if i == 0 {
      assert bytes == [b] + Repeat(0, more);
      NothingWeighsNothing(more);
    } else {
      assert bytes[1..] == Repeat(0 as byte, i - 1) + [b] + Repeat(0, more);
      ByteWeighs(b, i - 1, more);
    }
  }

  lemma {:induction false} NothingWeighsNothing(n: nat)
    ensures FromLe(Repeat(0 as byte, n)) == 0
  {
    if n != 0 {
      assert Repeat(0 as byte, n)[1..] == Repeat(0, n - 1);
      NothingWeighsNothing(n - 1);
    }
  }

  // ---- Writer and reader ----------------------------------------------------

  /** One framed record. The length is stored as a `u64`. */
  function Framed(payload: seq<byte>): (r: seq<byte>)
    ensures |r| == HEADER + |payload|
  {
    ToLe(|payload| % U64, HEADER) + payload
  }

  /** The log after appending these payloads to an empty file. */
  function LogOf(payloads: seq<seq<byte>>): seq<byte> {
    if payloads == [] then [] else Framed(payloads[0]) + LogOf(payloads[1..])
  }

  /** `append_cbor_record` on an existing file. */
  lemma {:induction false} AppendFrames(payloads: seq<seq<byte>>, payload: seq<byte>)
    ensures LogOf(payloads + [payload]) == LogOf(payloads) + Framed(payload)
  {
    if payloads == [] {
      assert (payloads + [payload])[1..] == [];
      assert LogOf([payload]) == Framed(payload) + LogOf([]);
    } else {
      assert (payloads + [payload])[1..] == payloads[1..] + [payload];
      AppendFrames(payloads[1..], payload);
    }
  }

  /** A header that cannot be read in full ends the log quietly; a payload that
      cannot is an error. */
  function Read<T>(bytes: seq<byte>, decode: seq<byte> -> Option<T>): Result<seq<T>, ReadError>
    decreases |bytes|
  {
    if |bytes| < HEADER then Ok([]) else
      var n := FromLe(bytes[..HEADER]);
      if MAX_RECORD_BYTES < n then Err(TooLong(n))
      else if |bytes| < HEADER + n then Err(Torn)
      else
        match decode(bytes[HEADER..HEADER + n])
        case None => Err(Undecodable)
        case Some(record) =>
          (match Read(bytes[HEADER + n..], decode)
           case Ok(rest) => Ok([record] + rest)
           case Err(e) => Err(e))
  }

  function Prepend<T>(records: seq<T>, r: Result<seq<T>, ReadError>): Result<seq<T>, ReadError> {
    match r
    case Ok(rest) => Ok(records + rest)
    case Err(e) => Err(e)
  }

  /** One step of reading, in terms of the position reached. */
  lemma ReadAt<T>(file: seq<byte>, pos: nat, decode: seq<byte> -> Option<T>)
    requires pos <= |file|
    ensures |file| - pos < HEADER ==> Read(file[pos..], decode) == Ok([])
    ensures HEADER <= |file| - pos ==>
      var n := FromLe(file[pos..pos + HEADER]);
      if MAX_RECORD_BYTES < n then Read(file[pos..], decode) == Err(TooLong(n))
      else if |file| - pos - HEADER < n then Read(file[pos..], decode) == Err(Torn)
      else
        var record := decode(file[pos + HEADER..pos + HEADER + n]);
        Read(file[pos..], decode)
        == if record.None? then Err(Undecodable) else Prepend([record.value], Read(file[pos + HEADER + n..], decode))
  {
    hide FromLe;
    var rest := file[pos..];
    if HEADER <= |rest| {
      assert rest[..HEADER] == file[pos..pos + HEADER];
      var n := FromLe(rest[..HEADER]);
      if HEADER + n <= |rest| {
        assert rest[HEADER..HEADER + n] == file[pos + HEADER..pos + HEADER + n];
        assert rest[HEADER + n..] == file[pos + HEADER + n..];
      }
    }
  }

  lemma PrependTwice<T>(records: seq<T>, record: T, r: Result<seq<T>, ReadError>)
    ensures Prepend(records, Prepend([record], r)) == Prepend(records + [record], r)
  {
    assert r.Ok? ==> records + ([record] + r.value) == records + [record] + r.value;
  }

  /** `read_cbor_records`: walks the file, handing over one record at a time. */
  method ReadRecords<T>(file: seq<byte>, decode: seq<byte> -> Option<T>) returns (r: Result<seq<T>, ReadError>)
    ensures r == Read(file, decode)
  {
    hide FromLe, Read, Prepend;
    var records: seq<T> := [];
    var pos := 0;
    assert file[0..] == file;
    PrependNothing(Read(file, decode));
    while true
      invariant 0 <= pos <= |file|
      invariant Prepend(records, Read(file[pos..], decode)) == Read(file, decode)
      decreases |file| - pos
    {
      ReadAt(file, pos, decode);
      PrependError(records, Read(file[pos..], decode));
      if |file| - pos < HEADER {
        return Ok(records);
      }
      var n := FromLe(file[pos..pos + HEADER]);
      if MAX_RECORD_BYTES < n {
        return Err(TooLong(n));
      }
      if |file| - pos - HEADER < n {
        return Err(Torn);
      }
      var payload := file[pos + HEADER..pos + HEADER + n];
      match decode(payload) {
        case None => return Err(Undecodable);
        case Some(record) =>
          PrependTwice(records, record, Read(file[pos + HEADER + n..], decode));
          records := records + [record];
          pos := pos + HEADER + n;
      }
    }
  }

  lemma PrependNothing<T>(r: Result<seq<T>, ReadError>)
    ensures Prepend([], r) == r
  {
    assert r.Ok? ==> [] + r.value == r.value;
  }

  lemma PrependError<T>(records: seq<T>, r: Result<seq<T>, ReadError>)
    ensures r.Err? ==> Prepend(records, r) == r
    ensures r == Ok([]) ==> Prepend(records, r) == Ok(records)
  {
    assert records + [] == records;
  }

  // ---- Cutting a log --------------------------------------------------------

  /** Payloads that the writer could produce and the decoder understands. */
  ghost predicate Decodes<T>(payloads: seq<seq<byte>>, records: seq<T>, decode: seq<byte> -> Option<T>) {
    && |payloads| == |records|
    && (forall i :: 0 <= i < |payloads| ==> decode(payloads[i]) == Some(records[i]))
    && (forall i :: 0 <= i < |payloads| ==> |payloads[i]| < U64)
  }

  predicate WithinBound(payloads: seq<seq<byte>>) {
    forall i :: 0 <= i < |payloads| ==> |payloads[i]| <= MAX_RECORD_BYTES
  }

  /** How many records lie completely before byte `cut`. */
  function CompleteBefore(payloads: seq<seq<byte>>, cut: nat): (k: nat)
    ensures k <= |payloads|
  {
    if payloads == [] || cut < HEADER + |payloads[0]| then 0
    else 1 + CompleteBefore(payloads[1..], cut - HEADER - |payloads[0]|)
  }

  /** How many bytes of the next record lie before the cut. */
  function BytesOver(payloads: seq<seq<byte>>, cut: nat): nat {
    if payloads == [] || cut < HEADER + |payloads[0]| then cut
    else BytesOver(payloads[1..], cut - HEADER - |payloads[0]|)
  }

  lemma ReadFirst<T>(payload: seq<byte>, record: T, rest: seq<byte>, decode: seq<byte> -> Option<T>)
    requires decode(payload) == Some(record) && |payload| <= MAX_RECORD_BYTES
    ensures Read(Framed(payload) + rest, decode) == Prepend([record], Read(rest, decode))
  {
    hide ToLe, FromLe;
    var bytes := Framed(payload) + rest;
    HeaderRoundTrip(|payload|);
    assert bytes[..HEADER] == ToLe(|payload|, HEADER);
    assert bytes[HEADER..HEADER + |payload|] == payload;
    assert bytes[HEADER + |payload|..] == rest;
  }

  /** Wherever a log is cut, the reader returns exactly the complete records
      before the cut, or fails: it fails just when the cut leaves a full header
      with part of its payload, and never makes a record up. */
  lemma {:induction false} EveryCut<T>(
    payloads: seq<seq<byte>>, records: seq<T>, decode: seq<byte> -> Option<T>, cut: nat)
    requires Decodes(payloads, records, decode) && WithinBound(payloads) && cut <= |LogOf(payloads)|
    ensures Read(LogOf(payloads)[..cut], decode) ==
      if BytesOver(payloads, cut) < HEADER then Ok(records[..CompleteBefore(payloads, cut)]) else Err(Torn)
  {
    hide ToLe, FromLe;
    if payloads != [] {
      var first, rest := payloads[0], payloads[1..];
      var bytes := LogOf(payloads)[..cut];
      if cut < HEADER + |first| {
        if HEADER <= cut {
          HeaderRoundTrip(|first|);
          assert bytes[..HEADER] == ToLe(|first|, HEADER);
        }
      } else {
        var cut' := cut - HEADER - |first|;
        assert bytes == Framed(first) + LogOf(rest)[..cut'];
        ReadFirst(first, records[0], LogOf(rest)[..cut'], decode);
        EveryCut(rest, records[1..], decode, cut');
        var k := CompleteBefore(rest, cut');
        assert [records[0]] + records[1..][..k] == records[..k + 1];
      }
    }
  }

  /** The bound is 64 MiB, inclusive. */
  lemma BoundIs(payloads: seq<seq<byte>>)
    ensures WithinBound(payloads) <==> forall p :: p in payloads ==> |p| <= 67_108_864
  {
  }

  /** The uncut log round-trips exactly when no record exceeds the reader's
      bound; the first one that does makes every later read fail. */
  lemma {:induction false} UncutLog<T>(payloads: seq<seq<byte>>, records: seq<T>, decode: seq<byte> -> Option<T>)
    requires Decodes(payloads, records, decode)
    ensures Read(LogOf(payloads), decode) == Ok(records) <==> WithinBound(payloads)
    ensures !WithinBound(payloads) ==>
      Read(LogOf(payloads), decode).Err? && Read(LogOf(payloads), decode).error.TooLong?
  {
    hide ToLe, FromLe;
    if payloads != [] {
      var first, rest := payloads[0], payloads[1..];
      UncutLog(rest, records[1..], decode);
      assert WithinBound(payloads) <==> |first| <= MAX_RECORD_BYTES && WithinBound(rest) by {
        assert forall i :: 0 <= i < |rest| ==> rest[i] == payloads[i + 1];
        assert forall i :: 1 <= i < |payloads| ==> payloads[i] == rest[i - 1];
      }
      if |first| <= MAX_RECORD_BYTES {
        ReadFirst(first, records[0], LogOf(rest), decode);
        assert [records[0]] + records[1..] == records;
      } else {
        HeaderRoundTrip(|first|);
        assert LogOf(payloads)[..HEADER] == ToLe(|first|, HEADER);
      }
    }
  }
}
