/** Block-size arithmetic of the PDM capture firmware: how many bytes one
    tenth of a second of 16-bit audio occupies, how big each slot of the
    memory slab is, and how many samples a received block holds. */
module BlockGeometry {

  /** Highest PCM rate the firmware configures, in Hz. */
  const MaxSampleRate: nat := 16000
  /** Width of one PCM sample in bits and in bytes. */
  const SampleBitWidth: nat := 16
  const BytesPerSample: nat := 2
  /** Timeout handed to every read of the microphone driver, in ms. */
  const ReadTimeoutMs: nat := 2000
  /** Number of slots in the memory slab and their alignment in bytes. */
  const BlockCount: nat := 4
  const SlabAlignment: nat := 4

  /** The stream configuration chosen at start-up: full rate, one channel. */
  const StreamRate: nat := MaxSampleRate
  const StreamChannels: nat := 1

  /** Bytes in one block: bytes per sample times the (truncated) number of
      frames in a tenth of a second, times the channel count. */
  function BlockSize(sampleRate: nat, channels: nat): nat
  {
    BytesPerSample * (sampleRate / 10) * channels
  }

  /** Size of one slab slot: a block at the highest rate, mono. */
  function MaxBlockSize(): nat
  {
    BlockSize(MaxSampleRate, 1)
  }

  /** Number of 16-bit samples that fit in one slab slot. */
  function SlotSamples(): nat
  {
    MaxBlockSize() / BytesPerSample
  }

  /** The block size written into the stream configuration. */
  function StreamBlockSize(): nat
  {
    BlockSize(StreamRate, StreamChannels)
  }

  /** Whole samples in a block of `size` bytes (unsigned division): the
      samples never extend past `size`, and at most one trailing byte is
      left over. */
  function NumSamples(size: nat): (n: nat)
    ensures BytesPerSample * n <= size < BytesPerSample * n + BytesPerSample
  {
    size / BytesPerSample
  }

  /** At 16 kHz mono a block is 3200 bytes (1600 samples), and the block size
      the stream is configured with is exactly the slab's slot size. */
  lemma StreamBlockFillsSlot()
    ensures MaxBlockSize() == 3200
    ensures SlotSamples() == 1600
    ensures StreamBlockSize() == MaxBlockSize()
    ensures NumSamples(StreamBlockSize()) == SlotSamples()
  {
  }

  /** Any mono rate up to the maximum yields a block that fits one slot. */
  lemma BlockFitsSlot(sampleRate: nat, channels: nat)
    requires sampleRate <= MaxSampleRate
    requires channels <= 1
    ensures BlockSize(sampleRate, channels) <= MaxBlockSize()
  {
  }

  /** A block is a whole number of frames, and that number of frames spans
      the largest tenth of a second not exceeding one second of audio:
      `frames * 10 <= sampleRate < frames * 10 + 10`. */
  lemma BlockIsTenthOfSecond(sampleRate: nat, channels: nat)
    requires channels > 0
    ensures var frameBytes := BytesPerSample * channels;
            var frames := BlockSize(sampleRate, channels) / frameBytes;
            BlockSize(sampleRate, channels) == frames * frameBytes &&
            frames * 10 <= sampleRate < frames * 10 + 10
  {
    var q := sampleRate / 10;
    var frameBytes := BytesPerSample * channels;
    assert BlockSize(sampleRate, channels) == q * frameBytes;
    DivOfMultiple(q, frameBytes);
  }

  /** (q * d) / d == q for a positive divisor. */
  lemma DivOfMultiple(q: nat, d: nat)
    requires d > 0
    ensures (q * d) / d == q
  {
    var r := (q * d) / d;
    var m := (q * d) % d;
    assert q * d == r * d + m && 0 <= m < d;
    assert (q - r) * d == m;
    assert (r - q) * d == -m;
    MulAtLeastDivisor(q - r, d);
    MulAtLeastDivisor(r - q, d);
  }

  /** A positive multiple of d is at least d. */
  lemma MulAtLeastDivisor(k: int, d: nat)
    ensures k >= 1 ==> k * d >= d
  {
    assert k * d == d + (k - 1) * d;
  }

  /** Every block size is even, so it is an exact number of samples. */
  lemma BlockIsWholeSamples(sampleRate: nat, channels: nat)
    ensures BytesPerSample * NumSamples(BlockSize(sampleRate, channels)) == BlockSize(sampleRate, channels)
  {
    var k := (sampleRate / 10) * channels;
    assert BlockSize(sampleRate, channels) == BytesPerSample * k;
  }
}
