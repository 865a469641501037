/** The adaptive compressor (core/src/compression.rs). zstd itself is an abstract inverse pair. */
module Compression {
  import opened Prelude

  /** `decompress` gives None for bytes zstd rejects. */
  datatype Zstd = Zstd(compress: seq<byte> -> seq<byte>, decompress: seq<byte> -> Option<seq<byte>>) {

    /** Decoding undoes encoding, and encoding grows its input by little. */
    ghost predicate Lawful() {
      && (forall x :: decompress(compress(x)) == Some(x))
      && (forall x :: |compress(x)| <= |x| + |x| / 256 + 1024)
    }

    /** `decompress_limited`: an output over `maxOut` is an error like any other. */
    function DecompressLimited(data: seq<byte>, maxOut: nat): Option<seq<byte>> {
      match decompress(data)
      case None => None
      case Some(out) => if |out| > maxOut then None else Some(out)
    }
  }

  /** What a receiver makes of a (payload, flag) pair. */
  predicate Decodes(z: Zstd, payload: seq<byte>, compressed: bool, original: seq<byte>) {
    if compressed then z.decompress(payload) == Some(original) else payload == original
  }

  /** The compressor's fields, as a value. */
  datatype Sampler = Sampler(sampleSize: nat, sampled: nat, originalSize: nat, compressedSize: nat,
                             enabled: bool, decided: bool)

  datatype Output = Output(payload: seq<byte>, compressed: bool, decisionChanged: bool)

  function NewSampler(sampleSize: nat): Sampler {
    Sampler(sampleSize, 0, 0, 0, true, sampleSize == 0)
  }

  /** One call of `compress`. The threshold 1.05 is compared in cross-multiplied form. */
  function Step(z: Zstd, s: Sampler, data: seq<byte>): (r: (Sampler, Output)) {
    if s.decided && !s.enabled then (s, Output(data, false, false)) else
    var packed := z.compress(data);
    if s.decided then (s, Output(packed, true, false)) else
    var t := s.(sampled := s.sampled + 1,
                originalSize := s.originalSize + |data|,
                compressedSize := s.compressedSize + |packed|);
    if t.sampled < t.sampleSize then (t, Output(packed, true, false)) else
    var keep := 100 * t.originalSize >= 105 * t.compressedSize;
    (t.(decided := true, enabled := t.enabled && keep), Output(packed, true, !keep))
  }

  class AdaptiveCompressor {
    const zstd: Zstd
    const sampleSize: nat
    var chunksSampled: nat
    var totalOriginalSize: nat
    var totalCompressedSize: nat
    var compressionEnabled: bool
    var compressionDecided: bool

    function View(): Sampler
      reads this
    {
      Sampler(sampleSize, chunksSampled, totalOriginalSize, totalCompressedSize, compressionEnabled, compressionDecided)
    }

    constructor (zstd: Zstd, sampleSize: nat)
      ensures View() == NewSampler(sampleSize) && this.zstd == zstd
    {
      this.zstd := zstd;
      this.sampleSize := sampleSize;
      chunksSampled, totalOriginalSize, totalCompressedSize := 0, 0, 0;
      compressionEnabled := true;
      compressionDecided := sampleSize == 0;
    }

    method Compress(data: seq<byte>) returns (out: Output)
      modifies this
      ensures (View(), out) == Step(zstd, old(View()), data)
    {
      if compressionDecided && !compressionEnabled {
        return Output(data, false, false);
      }
      var packed := zstd.compress(data);
      if !compressionDecided {
        chunksSampled := chunksSampled + 1;
        totalOriginalSize := totalOriginalSize + |data|;
        totalCompressedSize := totalCompressedSize + |packed|;
        if chunksSampled >= sampleSize {
          compressionDecided := true;
          var decisionChanged := false;
          if 100 * totalOriginalSize < 105 * totalCompressedSize {
            compressionEnabled := false;
            decisionChanged := true;
          }
          return Output(packed, true, decisionChanged);
        }
      }
      return Output(packed, true, false);
    }
  }

  // ----- runs over a sequence of chunks -----

  function After(z: Zstd, s: Sampler, chunks: seq<seq<byte>>): Sampler
    decreases chunks
  {
    if chunks == [] then s else After(z, Step(z, s, chunks[0]).0, chunks[1..])
  }

  function Outputs(z: Zstd, s: Sampler, chunks: seq<seq<byte>>): (r: seq<Output>)
    ensures |r| == |chunks|
    decreases chunks
  {
    if chunks == [] then [] else
    var (t, out) := Step(z, s, chunks[0]);
    [out] + Outputs(z, t, chunks[1..])
  }

  /** Every chunk comes back: whatever the compressor decided, (payload, flag) decodes to its chunk. */
  lemma {:induction false} EveryOutputDecodes(z: Zstd, s: Sampler, chunks: seq<seq<byte>>, k: nat)
    requires z.Lawful() && k < |chunks|
    ensures var out := Outputs(z, s, chunks)[k];
            && Decodes(z, out.payload, out.compressed, chunks[k])
            && |out.payload| <= |chunks[k]| + |chunks[k]| / 256 + 1024
    decreases chunks
  {
    if k > 0 {
      EveryOutputDecodes(z, Step(z, s, chunks[0]).0, chunks[1..], k - 1);
    }
  }

  lemma {:induction false} DecidedStays(z: Zstd, s: Sampler, chunks: seq<seq<byte>>)
    requires s.decided
    ensures After(z, s, chunks) == s
    ensures forall k :: 0 <= k < |chunks| ==>
              Outputs(z, s, chunks)[k].compressed == s.enabled && !Outputs(z, s, chunks)[k].decisionChanged
  {
    if chunks != [] {
      DecidedStays(z, s, chunks[1..]);
    }
  }

  /** The sizes summed over the sampled chunks. */
  function Sampled(z: Zstd, chunks: seq<seq<byte>>): (nat, nat) {
    if chunks == [] then (0, 0) else
    var (o, c) := Sampled(z, chunks[..|chunks| - 1]);
    (o + |chunks[|chunks| - 1]|, c + |z.compress(chunks[|chunks| - 1])|)
  }

  lemma {:induction false} Sampling(z: Zstd, n: nat, chunks: seq<seq<byte>>)
    requires n > 0 && |chunks| < n
    ensures var s := After(z, NewSampler(n), chunks);
            !s.decided && s.sampled == |chunks| && (s.originalSize, s.compressedSize) == Sampled(z, chunks)
            && s.enabled && s.sampleSize == n
  {
    if chunks != [] {
      var init := chunks[..|chunks| - 1];
      Sampling(z, n, init);
      AfterAppend(z, NewSampler(n), init, [chunks[|chunks| - 1]]);
      assert chunks == init + [chunks[|chunks| - 1]];
    }
  }

  lemma {:induction false} AfterAppend(z: Zstd, s: Sampler, a: seq<seq<byte>>, b: seq<seq<byte>>)
    ensures After(z, s, a + b) == After(z, After(z, s, a), b)
    decreases a
  {
    if a == [] {
      assert a + b == b;
    } else {
      AfterAppend(z, Step(z, s, a[0]).0, a[1..], b);
      assert (a + b)[1..] == a[1..] + b;
    }
  }

  lemma {:induction false} OutputAt(z: Zstd, s: Sampler, chunks: seq<seq<byte>>, k: nat)
    requires k < |chunks|
    ensures Outputs(z, s, chunks)[k] == Step(z, After(z, s, chunks[..k]), chunks[k]).1
    decreases chunks
  {
    if k > 0 {
      OutputAt(z, Step(z, s, chunks[0]).0, chunks[1..], k - 1);
      assert chunks[..k][1..] == chunks[1..][..k - 1];
    }
  }

  /** The whole decision: with `n` samples exactly the first `n` chunks are always compressed, the
      choice falls once, at chunk `n - 1`, by the ratio over those `n` chunks, and binds every later
      chunk; with no samples every chunk is compressed and nothing is ever decided. */
  lemma DecidesOnce(z: Zstd, n: nat, chunks: seq<seq<byte>>, k: nat)
    requires k < |chunks|
    ensures var out := Outputs(z, NewSampler(n), chunks)[k];
            if n == 0 then out.compressed && !out.decisionChanged
            else if k + 1 < n then out.compressed && !out.decisionChanged
            else
              var (o, c) := Sampled(z, chunks[..n]);
              var keep := 100 * o >= 105 * c;
              if k + 1 == n then out.compressed && out.decisionChanged == !keep
              else out.compressed == keep && !out.decisionChanged
  {
    var s0 := NewSampler(n);
    OutputAt(z, s0, chunks, k);
    if n == 0 {
      DecidedStays(z, s0, chunks[..k]);
    } else if k < n {
      Sampling(z, n, chunks[..k]);
      assert k + 1 == n ==> chunks[..n][..n - 1] == chunks[..k];
    } else {
      var head := chunks[..n - 1];
      Sampling(z, n, head);
      assert chunks[..n][..n - 1] == head;
      assert chunks[..k] == (head + [chunks[n - 1]]) + chunks[n..k];
      AfterAppend(z, s0, head, [chunks[n - 1]]);
      AfterAppend(z, s0, head + [chunks[n - 1]], chunks[n..k]);
      DecidedStays(z, After(z, s0, head + [chunks[n - 1]]), chunks[n..k]);
    }
  }
}
