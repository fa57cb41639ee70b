/**
 * The boundary scan of `CleanAudio.trim_silence` (clean_audio.py:208-269),
 * stated as pure functions: one scan step, the state after the first k
 * visited slices, and the trimmed range built from the final state.
 *
 * A clip is its length in ms together with the RMS energy of every full
 * 10 ms slice; the thresholds are the absolute RMS values that the source
 * derives from -50 dB and -20 dB (the dB conversion is not modelled).
 */
module TrimSpec {

  datatype Option<T> = None | Some(value: T)

  /** Width of one analysis slice, in ms (`self._silence_slice`). */
  const SilenceSlice: nat := 10
  /** Lead kept before a START run that is still open at the end of the scan (`leading_ms`). */
  const LeadingMs: nat := 250
  /** A run is confirmed once a noisy slice starts more than this many ms from the run start (`max_noise`). */
  const MaxNoise: nat := 100
  /** Margin kept after the detected END boundary (`end_extra_ms`). */
  const EndExtraMs: nat := 200

  /** `TRIM_START` scans slices in time order, `TRIM_END` in reverse time order. */
  datatype Direction = TrimStart | TrimEnd

  /** A decoded mono clip: its length in ms and the RMS of each full slice. */
  datatype Clip = Clip(lenMs: nat, rms: seq<real>) {
    /**
     * One RMS value per full slice (`int(seg_len / silence_slice)` of them);
     * a trailing partial slice has none.
     */
    predicate Valid() {
      |rms| * SilenceSlice <= lenMs < (|rms| + 1) * SilenceSlice
    }
  }

  /** Absolute RMS thresholds: above `silence` a slice is noisy; a run whose peak exceeds `burst` is speech. */
  datatype Thresholds = Thresholds(silence: real, burst: real)

  /**
   * The locals `noise_start` and `noise_peak` while the scan runs, or the
   * start of the run that the gap rule confirmed (the early return).
   */
  datatype ScanState =
    | Scanning(noiseStart: Option<nat>, noisePeak: Option<real>)
    | Confirmed(runStart: nat)

  /** The value `trim_silence` returns: `[]`, or the half-open ms range `[lo, hi)` of the input clip. */
  datatype Trimmed = Empty | Range(lo: nat, hi: nat)

  function Abs(x: int): nat {
    if x < 0 then -x else x
  }

  function Max(a: int, b: int): int {
    if a < b then b else a
  }

  function Min(a: int, b: int): int {
    if a < b then a else b
  }

  /** The slice visited at position k of a scan over n slices. */
  function SliceIndex(n: nat, dir: Direction, k: nat): (idx: nat)
    requires k < n
    ensures idx < n
  {
    if dir == TrimEnd then n - 1 - k else k
  }

  /** Slice idx is among the first k slices that a scan over n slices visits. */
  predicate Visited(n: nat, dir: Direction, k: nat, idx: nat) {
    if dir == TrimStart then idx < k else n - k <= idx < n
  }

  /** The body of the scan loop for slice idx (clean_audio.py:233-258). */
  function Step(rms: seq<real>, th: Thresholds, s: ScanState, idx: nat): ScanState
    requires idx < |rms|
  {
    match s
    case Confirmed(_) => s
    case Scanning(noiseStart, noisePeak) =>
      var startMs := idx * SilenceSlice;
      var v := rms[idx];
      if v > th.silence then
        var peak := if noisePeak.None? || v > noisePeak.value then v else noisePeak.value;
        if noiseStart.None? then Scanning(Some(startMs), Some(peak))
        else if Abs(startMs - noiseStart.value) > MaxNoise then Confirmed(noiseStart.value)
        else Scanning(noiseStart, Some(peak))
      else if noiseStart.Some? && noisePeak.Some? && noisePeak.value > th.burst then
        Scanning(None, noisePeak)
      else
        s
  }

  /** The scan state after the first k slices of the visiting order. */
  function StateAfter(rms: seq<real>, dir: Direction, th: Thresholds, k: nat): ScanState
    requires k <= |rms|
  {
    if k == 0 then Scanning(None, None)
    else Step(rms, th, StateAfter(rms, dir, th, k - 1), SliceIndex(|rms|, dir, k - 1))
  }

  /** The END cut: the run start, one slice and the trailing margin, clamped to the clip. */
  function EndCut(runStart: nat, lenMs: nat): nat {
    Min(runStart + SilenceSlice + EndExtraMs, lenMs)
  }

  /** The result of a scan that finished in state s (clean_audio.py:245-252, 260-269). */
  function Finish(lenMs: nat, dir: Direction, s: ScanState): Trimmed {
    match s
    case Confirmed(start) =>
      if dir == TrimStart then Range(start, lenMs) else Range(0, EndCut(start, lenMs))
    case Scanning(Some(start), _) =>
      // The source writes `math.max` here, which Python's math module does
      // not define; the built-in `max` is what it evidently means.
      if dir == TrimStart then Range(Max(start - LeadingMs, 0), lenMs) else Range(0, EndCut(start, lenMs))
    case Scanning(None, _) => Range(0, lenMs)
  }

  /**
   * The scan invariant: a run start (open or confirmed) is the start of a
   * slice the scan has visited, and an open run always has a peak.
   */
  ghost predicate WellFormed(n: nat, dir: Direction, k: nat, s: ScanState) {
    match s
    case Confirmed(start) =>
      start % SilenceSlice == 0 && start / SilenceSlice < n
    case Scanning(noiseStart, noisePeak) =>
      noiseStart.Some? ==>
        && noisePeak.Some?
        && noiseStart.value % SilenceSlice == 0
        && Visited(n, dir, k, noiseStart.value / SilenceSlice)
  }

  lemma {:induction false} StateAfterWellFormed(rms: seq<real>, dir: Direction, th: Thresholds, k: nat)
    requires k <= |rms|
    ensures WellFormed(|rms|, dir, k, StateAfter(rms, dir, th, k))
  {
    if k > 0 {
      StateAfterWellFormed(rms, dir, th, k - 1);
      var idx := SliceIndex(|rms|, dir, k - 1);
      assert (idx * SilenceSlice) % SilenceSlice == 0 && (idx * SilenceSlice) / SilenceSlice == idx;
    }
  }

  /**
   * `trim_silence(seg, trim)`: a clip shorter than one slice gives `[]`;
   * otherwise the result is a slice-aligned range of the clip at least one
   * slice long, a suffix for TRIM_START and a prefix for TRIM_END.
   */
  function Trim(clip: Clip, dir: Direction, th: Thresholds): (r: Trimmed)
    requires clip.Valid()
    ensures r.Empty? <==> clip.lenMs < SilenceSlice
    ensures r.Range? ==> r.lo + SilenceSlice <= r.hi <= clip.lenMs
    ensures r.Range? && dir == TrimStart ==> r.hi == clip.lenMs
    ensures r.Range? && dir == TrimEnd ==> r.lo == 0
    ensures r.Range? ==> r.lo % SilenceSlice == 0
  {
    if clip.lenMs < SilenceSlice then Empty
    else
      var n := |clip.rms|;
      StateAfterWellFormed(clip.rms, dir, th, n);
      Finish(clip.lenMs, dir, StateAfter(clip.rms, dir, th, n))
  }

  /** The part of a clip from the slice-aligned offset lo to its end, with its slices. */
  function Suffix(clip: Clip, lo: nat): (sub: Clip)
    requires clip.Valid() && lo % SilenceSlice == 0 && lo <= clip.lenMs
    ensures sub.Valid()
    ensures sub.lenMs == clip.lenMs - lo
  {
    Clip(clip.lenMs - lo, clip.rms[lo / SilenceSlice..])
  }

  /**
   * `clean_audio(seg)` after normalisation (clean_audio.py:277-281): trim the
   * start, then trim the end of what is left. The result is given in the
   * offsets of the input clip: empty exactly for a clip shorter than one
   * slice, otherwise a non-empty range of the clip.
   */
  function CleanRange(clip: Clip, th: Thresholds): (r: Trimmed)
    requires clip.Valid()
    ensures r.Empty? <==> clip.lenMs < SilenceSlice
    ensures r.Range? ==> r.lo < r.hi <= clip.lenMs
  {
    var first := Trim(clip, TrimStart, th);
    if first.Empty? then Empty
    else
      // What the START trim keeps is at least one slice long, so the END
      // trim of it is never `[]`.
      var second := Trim(Suffix(clip, first.lo), TrimEnd, th);
      Range(first.lo, first.lo + second.hi)
  }
}
