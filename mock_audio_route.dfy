/** The mock audio endpoint: a silent 16-bit mono PCM file in the canonical
    44-byte RIFF/WAVE layout (a `RIFF` form of type `WAVE` holding a `fmt `
    chunk and a `data` chunk, as in the WAVE form of the Microsoft/IBM
    Multimedia Programming Interface and Data Specifications 1.0), written
    field by field into a zero-filled buffer. */
module MockAudioRoute {
  import opened Json
  import opened Strings

  /** An audio response: status, `Content-Type`, `Content-Length` and the
      bytes. */
  datatype AudioResponse = AudioResponse(status: nat, contentType: string, contentLength: string, body: seq<Byte>)

  const HeaderSize: nat := 44
  const NumChannels: nat := 1
  const BytesPerSample: nat := 2
  /** What the handler asks for: thirty seconds at 44.1 kHz. */
  const MockDuration: nat := 30
  const DefaultSampleRate: nat := 44100

  const TwoTo16: nat := 0x1_0000
  const TwoTo32: nat := 0x1_0000_0000

  // ---------------------------------------------------------------------
  // Little-endian integers and ASCII tags

  function Pow256(n: nat): (p: nat)
    ensures p >= 1
  {
    if n == 0 then 1 else 256 * Pow256(n - 1)
  }

  /** The `width` bytes `writeUIntLE` stores for `value`, least significant
      first. */
  function LittleEndian(value: nat, width: nat): (bs: seq<Byte>)
    ensures |bs| == width
  {
    if width == 0 then [] else [value % 256] + LittleEndian(value / 256, width - 1)
  }

  /** What `readUIntLE` reads back. */
  function ReadLittleEndian(bs: seq<Byte>): nat {
    if bs == [] then 0 else bs[0] + 256 * ReadLittleEndian(bs[1..])
  }

  /** Writing a value that fits and reading it back gives the value. */
  lemma {:induction false} LittleEndianRoundTrip(value: nat, width: nat)
    requires value < Pow256(width)
    ensures ReadLittleEndian(LittleEndian(value, width)) == value
  {
    if width > 0 {
      assert value / 256 < Pow256(width - 1) by {
        assert value < 256 * Pow256(width - 1);
      }
      LittleEndianRoundTrip(value / 256, width - 1);
      assert LittleEndian(value, width)[1..] == LittleEndian(value / 256, width - 1);
    }
  }

  lemma Pow256Values()
    ensures Pow256(2) == TwoTo16 && Pow256(4) == TwoTo32
  {
    assert Pow256(1) == 256;
    assert Pow256(3) == 256 * TwoTo16;
  }

  /** `buffer.write(tag)` for a tag of ASCII letters and spaces: one byte
      per character. */
  function Ascii(tag: string): (bs: seq<Byte>)
    requires forall k :: 0 <= k < |tag| ==> tag[k] as int < 128
    ensures |bs| == |tag|
    ensures forall k :: 0 <= k < |tag| ==> bs[k] == tag[k] as int
  {
    seq(|tag|, k requires 0 <= k < |tag| => tag[k] as int)
  }

  const RiffTag := Ascii("RIFF")
  const WaveTag := Ascii("WAVE")
  const FmtTag := Ascii("fmt ")
  const DataTag := Ascii("data")

  function Zeros(n: nat): (bs: seq<Byte>)
    ensures |bs| == n
    ensures forall k :: 0 <= k < n ==> bs[k] == 0
  {
    seq(n, k => 0)
  }

  // ---------------------------------------------------------------------
  // The file

  /** The values the header stores do not overflow their fields. */
  predicate Fits(durationSeconds: nat, sampleRate: nat) {
    36 + DataSize(durationSeconds, sampleRate) < TwoTo32 && 2 * sampleRate < TwoTo32
  }

  /** The number of samples times the two bytes of a mono 16-bit block. */
  function DataSize(durationSeconds: nat, sampleRate: nat): nat {
    2 * (durationSeconds * sampleRate)
  }

  /** The RIFF form header: the tag, the size of everything after the size
      field, and the form type. */
  function RiffHeader(fileSize: nat): seq<Byte> {
    RiffTag + LittleEndian(fileSize, 4) + WaveTag
  }

  /** The `fmt ` chunk of 16-bit mono PCM at `sampleRate`. */
  function FormatChunk(sampleRate: nat): seq<Byte> {
    FmtTag + LittleEndian(16, 4) + LittleEndian(1, 2) + LittleEndian(1, 2) +
    LittleEndian(sampleRate, 4) + LittleEndian(2 * sampleRate, 4) +
    LittleEndian(2, 2) + LittleEndian(16, 2)
  }

  /** The head of the `data` chunk: its tag and size. */
  function DataChunkHeader(dataSize: nat): seq<Byte> {
    DataTag + LittleEndian(dataSize, 4)
  }

  /** The 44 header bytes. */
  function Header(durationSeconds: nat, sampleRate: nat): seq<Byte> {
    var dataSize := DataSize(durationSeconds, sampleRate);
    RiffHeader(36 + dataSize) + FormatChunk(sampleRate) + DataChunkHeader(dataSize)
  }

  /** The whole file: the header, then silence. */
  function WavFile(durationSeconds: nat, sampleRate: nat): seq<Byte> {
    Header(durationSeconds, sampleRate) + Zeros(DataSize(durationSeconds, sampleRate))
  }

  /** The u32 or u16 stored at `offset`. */
  function FieldAt(file: seq<Byte>, offset: nat, width: nat): nat
    requires offset + width <= |file|
  {
    ReadLittleEndian(file[offset..offset + width])
  }

  lemma SliceLeft(a: seq<Byte>, b: seq<Byte>, i: nat, j: nat)
    requires i <= j <= |a|
    ensures (a + b)[i..j] == a[i..j]
  {
  }

  lemma SliceRight(a: seq<Byte>, b: seq<Byte>, i: nat, j: nat)
    requires |a| <= i <= j <= |a| + |b|
    ensures (a + b)[i..j] == b[i - |a|..j - |a|]
  {
  }

  lemma RiffHeaderSlices(fileSize: nat)
    ensures var r := RiffHeader(fileSize);
      |r| == 12 && r[0..4] == RiffTag && r[4..8] == LittleEndian(fileSize, 4) && r[8..12] == WaveTag
  {
  }

  lemma FormatChunkSlices(sampleRate: nat)
    ensures var c := FormatChunk(sampleRate);
      |c| == 24 && c[0..4] == FmtTag &&
      c[4..8] == LittleEndian(16, 4) && c[8..10] == LittleEndian(1, 2) &&
      c[10..12] == LittleEndian(1, 2) && c[12..16] == LittleEndian(sampleRate, 4) &&
      c[16..20] == LittleEndian(2 * sampleRate, 4) &&
      c[20..22] == LittleEndian(2, 2) &&
      c[22..24] == LittleEndian(16, 2)
  {
  }

  lemma DataChunkHeaderSlices(dataSize: nat)
    ensures var d := DataChunkHeader(dataSize);
      |d| == 8 && d[0..4] == DataTag && d[4..8] == LittleEndian(dataSize, 4)
  {
  }

  /** The header's bytes at their offsets: each field where it is
      written. */
  lemma HeaderSlices(durationSeconds: nat, sampleRate: nat)
    ensures var h := Header(durationSeconds, sampleRate);
      var dataSize := DataSize(durationSeconds, sampleRate);
      |h| == HeaderSize &&
      h[0..4] == RiffTag && h[4..8] == LittleEndian(36 + dataSize, 4) && h[8..12] == WaveTag &&
      h[12..16] == FmtTag &&
      h[16..20] == LittleEndian(16, 4) && h[20..22] == LittleEndian(1, 2) &&
      h[22..24] == LittleEndian(1, 2) && h[24..28] == LittleEndian(sampleRate, 4) &&
      h[28..32] == LittleEndian(2 * sampleRate, 4) &&
      h[32..34] == LittleEndian(2, 2) &&
      h[34..36] == LittleEndian(16, 2) &&
      h[36..40] == DataTag && h[40..44] == LittleEndian(dataSize, 4)
  {
    var dataSize := DataSize(durationSeconds, sampleRate);
    var r, c, d := RiffHeader(36 + dataSize), FormatChunk(sampleRate), DataChunkHeader(dataSize);
    RiffHeaderSlices(36 + dataSize);
    FormatChunkSlices(sampleRate);
    DataChunkHeaderSlices(dataSize);
    var rc := r + c;
    forall i, j | 0 <= i <= j <= 12 ensures (rc + d)[i..j] == r[i..j] {
      SliceLeft(r, c, i, j);
      SliceLeft(rc, d, i, j);
    }
    forall i, j | 12 <= i <= j <= 36 ensures (rc + d)[i..j] == c[i - 12..j - 12] {
      SliceRight(r, c, i, j);
      SliceLeft(rc, d, i, j);
    }
    forall i, j | 36 <= i <= j <= 44 ensures (rc + d)[i..j] == d[i - 36..j - 36] {
      SliceRight(rc, d, i, j);
    }
  }

  /** The file is the 44-byte header and two bytes per sample. */
  lemma WavLength(durationSeconds: nat, sampleRate: nat)
    ensures |WavFile(durationSeconds, sampleRate)| == HeaderSize + 2 * (durationSeconds * sampleRate)
  {
    HeaderSlices(durationSeconds, sampleRate);
  }

  /** The four chunk tags sit at bytes 0, 8, 12 and 36. */
  lemma WavTags(durationSeconds: nat, sampleRate: nat)
    ensures var f := WavFile(durationSeconds, sampleRate);
      |f| >= HeaderSize &&
      f[0..4] == RiffTag && f[8..12] == WaveTag &&
      f[12..16] == FmtTag && f[36..40] == DataTag
  {
    var h := Header(durationSeconds, sampleRate);
    var z := Zeros(DataSize(durationSeconds, sampleRate));
    HeaderSlices(durationSeconds, sampleRate);
    SliceLeft(h, z, 0, 4);
    SliceLeft(h, z, 8, 12);
    SliceLeft(h, z, 12, 16);
    SliceLeft(h, z, 36, 40);
  }

  /** A field holding bytes written for a value that fits reads back as
      that value. */
  lemma FieldReadsBack(f: seq<Byte>, offset: nat, width: nat, value: nat)
    requires offset + width <= |f| && f[offset..offset + width] == LittleEndian(value, width)
    requires value < Pow256(width)
    ensures FieldAt(f, offset, width) == value
  {
    LittleEndianRoundTrip(value, width);
  }

  /** The RIFF size is 36 plus the data size, the data size is two bytes
      per sample, and the `fmt ` chunk says: 16 bytes long, PCM, one
      channel, the sample rate, twice the sample rate bytes per second,
      two-byte blocks of 16 bits. */
  lemma WavFields(durationSeconds: nat, sampleRate: nat)
    requires Fits(durationSeconds, sampleRate)
    ensures var f := WavFile(durationSeconds, sampleRate);
      var dataSize := 2 * (durationSeconds * sampleRate);
      |f| >= HeaderSize &&
      FieldAt(f, 4, 4) == 36 + dataSize && FieldAt(f, 40, 4) == dataSize &&
      FieldAt(f, 16, 4) == 16 && FieldAt(f, 20, 2) == 1 && FieldAt(f, 22, 2) == 1 &&
      FieldAt(f, 24, 4) == sampleRate && FieldAt(f, 28, 4) == 2 * sampleRate &&
      FieldAt(f, 32, 2) == 2 && FieldAt(f, 34, 2) == 16
  {
    var f := WavFile(durationSeconds, sampleRate);
    var h := Header(durationSeconds, sampleRate);
    var z := Zeros(DataSize(durationSeconds, sampleRate));
    var dataSize := DataSize(durationSeconds, sampleRate);
    HeaderSlices(durationSeconds, sampleRate);
    Pow256Values();
    forall i, j | 0 <= i <= j <= HeaderSize ensures f[i..j] == h[i..j] {
      SliceLeft(h, z, i, j);
    }
    FieldReadsBack(f, 4, 4, 36 + dataSize);
    FieldReadsBack(f, 40, 4, dataSize);
    FieldReadsBack(f, 16, 4, 16);
    FieldReadsBack(f, 20, 2, 1);
    FieldReadsBack(f, 22, 2, 1);
    FieldReadsBack(f, 24, 4, sampleRate);
    FieldReadsBack(f, 28, 4, 2 * sampleRate);
    FieldReadsBack(f, 32, 2, 2);
    FieldReadsBack(f, 34, 2, 16);
  }

  /** Every sample byte is zero. */
  lemma WavSilent(durationSeconds: nat, sampleRate: nat)
    ensures var f := WavFile(durationSeconds, sampleRate);
      forall k :: HeaderSize <= k < |f| ==> f[k] == 0
  {
    var f := WavFile(durationSeconds, sampleRate);
    forall k | HeaderSize <= k < |f| ensures f[k] == 0 {
      assert f[k] == Zeros(DataSize(durationSeconds, sampleRate))[k - HeaderSize];
    }
  }

  // ---------------------------------------------------------------------
  // The buffer writes

  /** `buffer.write`, `writeUInt32LE` and `writeUInt16LE`: the bytes land at
      `offset` and nothing else changes. */
  method Put(buffer: array<Byte>, offset: nat, bytes: seq<Byte>)
    requires offset + |bytes| <= buffer.Length
    modifies buffer
    ensures buffer[..] == old(buffer[..])[..offset] + bytes + old(buffer[..])[offset + |bytes|..]
  {
    forall k | 0 <= k < |bytes| {
      buffer[offset + k] := bytes[k];
    }
  }

  /** `buffer.fill(0, offset)`. */
  method FillZero(buffer: array<Byte>, offset: nat)
    requires offset <= buffer.Length
    modifies buffer
    ensures buffer[..] == old(buffer[..])[..offset] + Zeros(buffer.Length - offset)
  {
    forall k | offset <= k < buffer.Length {
      buffer[k] := 0;
    }
  }

  /** `buffer` holds `target` before `offset` and `orig` from there on. */
  predicate WrittenUpTo(buffer: seq<Byte>, target: seq<Byte>, orig: seq<Byte>, offset: nat) {
    |target| == |orig| && offset <= |orig| && buffer == target[..offset] + orig[offset..]
  }

  /** Writing the bytes `target` holds at `offset` moves the boundary past
      them. */
  lemma PutExtends(before: seq<Byte>, after: seq<Byte>, target: seq<Byte>, orig: seq<Byte>, offset: nat, bytes: seq<Byte>)
    requires WrittenUpTo(before, target, orig, offset)
    requires offset + |bytes| <= |target| && target[offset..offset + |bytes|] == bytes
    requires after == before[..offset] + bytes + before[offset + |bytes|..]
    ensures WrittenUpTo(after, target, orig, offset + |bytes|)
  {
    var n := offset + |bytes|;
    assert before[..offset] == target[..offset];
    assert before[n..] == orig[n..];
    assert target[..n] == target[..offset] + bytes;
  }

  /** The header fields of the file where they are written. */
  lemma WavFileSlices(durationSeconds: nat, sampleRate: nat)
    ensures var f := WavFile(durationSeconds, sampleRate);
      var dataSize := DataSize(durationSeconds, sampleRate);
      |f| == HeaderSize + dataSize &&
      f[0..4] == RiffTag && f[4..8] == LittleEndian(36 + dataSize, 4) && f[8..12] == WaveTag &&
      f[12..16] == FmtTag &&
      f[16..20] == LittleEndian(16, 4) && f[20..22] == LittleEndian(1, 2) &&
      f[22..24] == LittleEndian(1, 2) && f[24..28] == LittleEndian(sampleRate, 4) &&
      f[28..32] == LittleEndian(2 * sampleRate, 4) &&
      f[32..34] == LittleEndian(2, 2) && f[34..36] == LittleEndian(16, 2) &&
      f[36..40] == DataTag && f[40..44] == LittleEndian(dataSize, 4) &&
      f[HeaderSize..] == Zeros(dataSize)
  {
    var h := Header(durationSeconds, sampleRate);
    var z := Zeros(DataSize(durationSeconds, sampleRate));
    HeaderSlices(durationSeconds, sampleRate);
    forall i, j | 0 <= i <= j <= HeaderSize ensures (h + z)[i..j] == h[i..j] {
      SliceLeft(h, z, i, j);
    }
    assert (h + z)[HeaderSize..] == z;
  }

  /** One write of the header: `bytes` at `offset`, which are the bytes the
      file holds there; the offset moves past them. */
  method WriteField(buffer: array<Byte>, offset: nat, bytes: seq<Byte>, ghost target: seq<Byte>, ghost orig: seq<Byte>)
    returns (next: nat)
    requires WrittenUpTo(buffer[..], target, orig, offset)
    requires offset + |bytes| <= |target| && target[offset..offset + |bytes|] == bytes
    modifies buffer
    ensures next == offset + |bytes| && WrittenUpTo(buffer[..], target, orig, next)
  {
    ghost var before := buffer[..];
    Put(buffer, offset, bytes);
    PutExtends(before, buffer[..], target, orig, offset, bytes);
    next := offset + |bytes|;
  }

  /** `createSilentWav`: the header fields written one after another, each
      advancing `offset`, then the rest filled with zeros. */
  method CreateSilentWav(durationSeconds: nat, sampleRate: nat) returns (buffer: array<Byte>)
    requires Fits(durationSeconds, sampleRate)
    ensures fresh(buffer)
    ensures buffer[..] == WavFile(durationSeconds, sampleRate)
  {
    var numSamples := durationSeconds * sampleRate;
    var numChannels := NumChannels;
    var bytesPerSample := BytesPerSample;
    var blockAlign := numChannels * bytesPerSample;
    var byteRate := sampleRate * blockAlign;
    var dataSize := numSamples * blockAlign;
    var fileSize := 36 + dataSize;
    assert blockAlign == 2;
    assert byteRate == 2 * sampleRate && dataSize == DataSize(durationSeconds, sampleRate);
    ghost var target := WavFile(durationSeconds, sampleRate);
    WavFileSlices(durationSeconds, sampleRate);
    buffer := new Byte[HeaderSize + dataSize](_ => 0);
    ghost var orig := buffer[..];
    var offset := 0;
    // the RIFF header
    offset := WriteField(buffer, offset, RiffTag, target, orig);
    offset := WriteField(buffer, offset, LittleEndian(fileSize, 4), target, orig);
    offset := WriteField(buffer, offset, WaveTag, target, orig);
    // the format chunk
    offset := WriteField(buffer, offset, FmtTag, target, orig);
    offset := WriteField(buffer, offset, LittleEndian(16, 4), target, orig);
    offset := WriteField(buffer, offset, LittleEndian(1, 2), target, orig);
    offset := WriteField(buffer, offset, LittleEndian(numChannels, 2), target, orig);
    offset := WriteField(buffer, offset, LittleEndian(sampleRate, 4), target, orig);
    offset := WriteField(buffer, offset, LittleEndian(byteRate, 4), target, orig);
    offset := WriteField(buffer, offset, LittleEndian(blockAlign, 2), target, orig);
    offset := WriteField(buffer, offset, LittleEndian(bytesPerSample * 8, 2), target, orig);
    // the data chunk
    offset := WriteField(buffer, offset, DataTag, target, orig);
    offset := WriteField(buffer, offset, LittleEndian(dataSize, 4), target, orig);
    // silence
    FillZero(buffer, offset);
    assert buffer[..] == target[..offset] + target[offset..];
  }

  /** GET: thirty seconds of silence at 44.1 kHz, with a `Content-Length`
      that is the buffer's length. */
  method Get() returns (response: AudioResponse)
    ensures response.status == 200 && response.contentType == "audio/wav"
    ensures response.body == WavFile(MockDuration, DefaultSampleRate)
    ensures AllDigits(response.contentLength) && ParseDigits(response.contentLength) == |response.body|
  {
    assert Fits(MockDuration, DefaultSampleRate);
    var audioBuffer := CreateSilentWav(MockDuration, DefaultSampleRate);
    ParseNatToString(audioBuffer.Length);
    response := AudioResponse(200, "audio/wav", NatToString(audioBuffer.Length), audioBuffer[..]);
  }
}
