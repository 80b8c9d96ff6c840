/** The reader of a buffer's subsample list (source/GStreamerEMEUtils.cpp), whose layout is that
    of the Sample Encryption Box, section 7.2 of ISO/IEC 23001-7: big-endian records of a 16-bit
    clear and a 32-bit encrypted byte count. */
module SubSampleReader {
  import opened Common

  datatype SubSample = SubSample(clear: bv16, encrypted: bv32)

  const RECORD_SIZE := 6

  function EncodeRecord(s: SubSample): (r: seq<bv8>)
    ensures |r| == RECORD_SIZE
  {
    [(s.clear >> 8) as bv8, (s.clear & 0xFF) as bv8,
     (s.encrypted >> 24) as bv8, ((s.encrypted >> 16) & 0xFF) as bv8,
     ((s.encrypted >> 8) & 0xFF) as bv8, (s.encrypted & 0xFF) as bv8]
  }

  function Encode(list: seq<SubSample>): (bytes: seq<bv8>)
    ensures |bytes| == RECORD_SIZE * |list|
  {
    if list == [] then [] else Encode(list[..|list| - 1]) + EncodeRecord(list[|list| - 1])
  }

  /** The big-endian numbers that the reader puts together from bytes. */
  function Read16(bytes: seq<bv8>, offset: nat): bv16
    requires offset + 2 <= |bytes|
  {
    ((bytes[offset] as bv16) << 8) | (bytes[offset + 1] as bv16)
  }

  function Read32(bytes: seq<bv8>, offset: nat): bv32
    requires offset + 4 <= |bytes|
  {
    ((bytes[offset] as bv32) << 24) | ((bytes[offset + 1] as bv32) << 16)
    | ((bytes[offset + 2] as bv32) << 8) | (bytes[offset + 3] as bv32)
  }

  function ReadRecord(bytes: seq<bv8>, offset: nat): SubSample
    requires offset + RECORD_SIZE <= |bytes|
  {
    SubSample(Read16(bytes, offset), Read32(bytes, offset + 2))
  }

  /** The first `count` records. */
  function Records(bytes: seq<bv8>, count: nat): (list: seq<SubSample>)
    requires RECORD_SIZE * count <= |bytes|
    ensures |list| == count
  {
    if count == 0 then [] else Records(bytes, count - 1) + [ReadRecord(bytes, RECORD_SIZE * (count - 1))]
  }

  /** The reader's checks: a count, a mapped buffer, and as many whole records as counted. */
  predicate Accepts(count: nat, bytes: Option<seq<bv8>>) {
    count != 0 && bytes.Some? && |bytes.value| / RECORD_SIZE == count
  }

  /** A list is accepted exactly if it has as many whole records as counted, and less than one more. */
  lemma AcceptsExactly(count: nat, bytes: Option<seq<bv8>>)
    ensures Accepts(count, bytes) <==>
      count > 0 && bytes.Some? && 6 * count <= |bytes.value| < 6 * count + 6
  {
  }

  // ----- the two are inverse

  lemma RecordReadBack(s: SubSample, bytes: seq<bv8>, offset: nat)
    requires offset + RECORD_SIZE <= |bytes| && bytes[offset..offset + RECORD_SIZE] == EncodeRecord(s)
    ensures ReadRecord(bytes, offset) == s
  {
    var r := EncodeRecord(s);
    var b := bytes[offset..offset + RECORD_SIZE];
    assert bytes[offset] == b[0] && bytes[offset + 1] == b[1] && bytes[offset + 2] == b[2];
    assert bytes[offset + 3] == b[3] && bytes[offset + 4] == b[4] && bytes[offset + 5] == b[5];
    assert bytes[offset] == r[0] && bytes[offset + 1] == r[1] && bytes[offset + 2] == r[2];
    assert bytes[offset + 3] == r[3] && bytes[offset + 4] == r[4] && bytes[offset + 5] == r[5];
  }

  lemma RecordWrittenBack(bytes: seq<bv8>, offset: nat)
    requires offset + RECORD_SIZE <= |bytes|
    ensures EncodeRecord(ReadRecord(bytes, offset)) == bytes[offset..offset + RECORD_SIZE]
  {
  }

  lemma {:induction false} RecordsPrefix(bytes: seq<bv8>, more: seq<bv8>, count: nat)
    requires RECORD_SIZE * count <= |bytes|
    ensures Records(bytes + more, count) == Records(bytes, count)
  {
    if count > 0 {
      RecordsPrefix(bytes, more, count - 1);
    }
  }

  /** Reading what was encoded gives the list back, whatever incomplete record follows. */
  lemma {:induction false} ReadEncoded(list: seq<SubSample>, tail: seq<bv8>)
    requires |tail| < RECORD_SIZE
    ensures list != [] ==> Accepts(|list|, Some(Encode(list) + tail))
    ensures Records(Encode(list) + tail, |list|) == list
  {
    RecordsPrefix(Encode(list), tail, |list|);
    if list != [] {
      var n := |list| - 1;
      ReadEncoded(list[..n], []);
      assert Encode(list[..n]) + [] == Encode(list[..n]);
      RecordsPrefix(Encode(list[..n]), EncodeRecord(list[n]), n);
      RecordReadBack(list[n], Encode(list), RECORD_SIZE * n);
    }
  }

  /** Encoding what was read from any accepted buffer gives its whole records back. */
  lemma {:induction false} EncodeRead(bytes: seq<bv8>, count: nat)
    requires RECORD_SIZE * count <= |bytes|
    ensures Encode(Records(bytes, count)) == bytes[..RECORD_SIZE * count]
  {
    if count > 0 {
      var n, list := count - 1, Records(bytes, count);
      EncodeRead(bytes, n);
      RecordWrittenBack(bytes, RECORD_SIZE * n);
      assert list[..n] == Records(bytes, n) && list[n] == ReadRecord(bytes, RECORD_SIZE * n);
      TakeMore(bytes, RECORD_SIZE * n, RECORD_SIZE);
    }
  }

  lemma TakeMore(bytes: seq<bv8>, i: nat, k: nat)
    requires i + k <= |bytes|
    ensures bytes[..i] + bytes[i..i + k] == bytes[..i + k]
  {
  }

  // ----- the reader

  /** The pairs of 32-bit counts that the metadata keeps. */
  function Widen(list: seq<SubSample>): (pairs: seq<(bv32, bv32)>)
    ensures |pairs| == |list|
  {
    if list == [] then []
    else Widen(list[..|list| - 1]) + [(list[|list| - 1].clear as bv32, list[|list| - 1].encrypted)]
  }

  lemma {:induction false} WidenAt(list: seq<SubSample>, i: nat)
    requires i < |list|
    ensures Widen(list)[i] == (list[i].clear as bv32, list[i].encrypted)
  {
    if i < |list| - 1 {
      WidenAt(list[..|list| - 1], i);
    }
  }

  /** The metadata's pairs for an encoded list are the list's own counts, record by record. */
  lemma PairsOfEncoded(list: seq<SubSample>, tail: seq<bv8>, i: nat)
    requires |tail| < RECORD_SIZE && i < |list|
    ensures Widen(Records(Encode(list) + tail, |list|))[i] == (list[i].clear as bv32, list[i].encrypted)
  {
    ReadEncoded(list, tail);
    WidenAt(list, i);
  }

  class BufferProtectionMetadata {
    var subsamples: seq<(bv32, bv32)>

    constructor ()
      ensures subsamples == []
    {
      subsamples := [];
    }

    /** `bytes` is None when the list is missing or cannot be mapped. */
    method GetSubSamples(subSampleCount: nat, bytes: Option<seq<bv8>>)
      modifies this
      ensures subsamples == old(subsamples) +
        if Accepts(subSampleCount, bytes) then Widen(Records(bytes.value, subSampleCount)) else []
      ensures bytes.None? || |bytes.value| < 6 * subSampleCount || |bytes.value| >= 6 * subSampleCount + 6
        ==> subsamples == old(subsamples)
    {
      AcceptsExactly(subSampleCount, bytes);
      if subSampleCount == 0 || bytes.None? {
        return;
      }
      var subSamples := bytes.value;
      if |subSamples| / RECORD_SIZE != subSampleCount {
        return;
      }
      var subSampleOffset := 0;
      for subSampleIdx := 0 to subSampleCount
        invariant subSampleOffset == RECORD_SIZE * subSampleIdx
        invariant subsamples == old(subsamples) + Widen(Records(subSamples, subSampleIdx))
      {
        var bytesOfClearData := Read16(subSamples, subSampleOffset);
        var bytesOfEncryptedData := Read32(subSamples, subSampleOffset + 2);
        ghost var next := Records(subSamples, subSampleIdx + 1);
        assert next[..subSampleIdx] == Records(subSamples, subSampleIdx);
        subsamples := subsamples + [(bytesOfClearData as bv32, bytesOfEncryptedData)];
        subSampleOffset := subSampleOffset + RECORD_SIZE;
      }
    }
  }
}
