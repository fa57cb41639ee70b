/**
 * `trim_silence` as written computes the START lead with `math.max`
 * (clean_audio.py:262). Python's math module has no `max`, so that line
 * raises `AttributeError` whenever a START scan ends with a run still open.
 * `TrimAsWritten` models that; `TrimSpec.Trim` is the corrected behaviour,
 * with the built-in `max`.
 */
module Findings {
  import opened TrimSpec

  /** What a call of `trim_silence` as written does: return a range, or raise. */
  datatype Outcome = Returned(result: Trimmed) | AttributeError

  /** `Finish` with the source's `math.max` call, which raises. */
  function FinishAsWritten(lenMs: nat, dir: Direction, s: ScanState): Outcome {
    match s
    case Scanning(Some(start), _) =>
      if dir == TrimStart then AttributeError else Returned(Range(0, EndCut(start, lenMs)))
    case _ => Returned(Finish(lenMs, dir, s))
  }

  /**
   * `trim_silence` as written: it raises exactly on a START scan of a clip of
   * at least one slice that ends with a run open, and otherwise agrees with
   * the corrected `Trim`.
   */
  function TrimAsWritten(clip: Clip, dir: Direction, th: Thresholds): (r: Outcome)
    requires clip.Valid()
    ensures r.AttributeError? <==>
      && dir == TrimStart && clip.lenMs >= SilenceSlice
      && StateAfter(clip.rms, dir, th, |clip.rms|).Scanning?
      && StateAfter(clip.rms, dir, th, |clip.rms|).noiseStart.Some?
    ensures r.Returned? ==> r.result == Trim(clip, dir, th)
  {
    if clip.lenMs < SilenceSlice then Returned(Empty)
    else FinishAsWritten(clip.lenMs, dir, StateAfter(clip.rms, dir, th, |clip.rms|))
  }

  /**
   * A 10 ms clip whose single slice is noisy but below the burst threshold:
   * the START scan opens a run at 0 and ends with it open, so the source
   * raises where the corrected trim keeps the whole clip.
   */
  lemma MathMaxRaises(clip: Clip, th: Thresholds)
    requires clip == Clip(10, [0.5]) && th == Thresholds(0.1, 0.9)
    ensures TrimAsWritten(clip, TrimStart, th) == AttributeError
    ensures Trim(clip, TrimStart, th) == Range(0, 10)
  {
    assert StateAfter(clip.rms, TrimStart, th, 1) == Scanning(Some(0), Some(0.5));
  }
}
