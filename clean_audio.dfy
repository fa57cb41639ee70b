/**
 * The scanning methods of class `CleanAudio` (clean_audio.py:165-275):
 * `trim_silence` as the loop the source runs over the slice indices, with
 * its locals and early returns, proved equal to `TrimSpec.Trim`; and the
 * window loop of `dump_rms`.
 */
module CleanAudio {
  import opened TrimSpec
  import opened TrimProperties

  /**
   * The END cut that `trim_silence` computes in two places
   * (clean_audio.py:249-252, 264-267): one slice and the trailing margin
   * past the run start, clamped to the clip.
   */
  method EndOfRun(noiseStart: nat, segLen: nat) returns (end: nat)
    ensures end <= segLen
    ensures end <= noiseStart + SilenceSlice + EndExtraMs
    ensures end == segLen || end == noiseStart + SilenceSlice + EndExtraMs
  {
    end := noiseStart + SilenceSlice + EndExtraMs;
    if end > segLen {
      end := segLen;
    }
  }

  /** `trim_silence(seg, trim)` (clean_audio.py:208-269). */
  method TrimSilence(clip: Clip, trim: Direction, th: Thresholds) returns (r: Trimmed)
    requires clip.Valid()
    ensures r == Trim(clip, trim, th)
  {
    var segLen := clip.lenMs;
    if segLen < SilenceSlice {
      return Empty;
    }
    var noiseStart: Option<nat> := None;
    var noisePeak: Option<real> := None;
    var n := segLen / SilenceSlice;
    for k := 0 to n
      invariant StateAfter(clip.rms, trim, th, k) == Scanning(noiseStart, noisePeak)
      invariant noiseStart.Some? ==> noisePeak.Some?
    {
      var idx := if trim == TrimEnd then n - 1 - k else k;
      var startMs := idx * SilenceSlice;
      var sliceRms := clip.rms[idx];
      assert idx == SliceIndex(|clip.rms|, trim, k);
      ghost var next := Step(clip.rms, th, Scanning(noiseStart, noisePeak), idx);
      assert StateAfter(clip.rms, trim, th, k + 1) == next;
      if sliceRms > th.silence {
        if noisePeak.None? {
          noisePeak := Some(sliceRms);
        }
        if sliceRms > noisePeak.value {
          noisePeak := Some(sliceRms);
        }
        if noiseStart.None? {
          noiseStart := Some(startMs);
        } else if Abs(startMs - noiseStart.value) > MaxNoise {
          assert next == Confirmed(noiseStart.value);
          ConfirmedIsFinal(clip.rms, trim, th, k + 1, n);
          assert Trim(clip, trim, th) == Finish(segLen, trim, next);
          if trim == TrimStart {
            return Range(noiseStart.value, segLen);
          }
          var end := EndOfRun(noiseStart.value, segLen);
          return Range(0, end);
        }
      } else {
        if noiseStart.Some? && noisePeak.value > th.burst {
          noiseStart := None;
        }
      }
    }
    assert Trim(clip, trim, th) == Finish(segLen, trim, Scanning(noiseStart, noisePeak));
    if noiseStart.Some? {
      if trim == TrimStart {
        // `math.max` in the source; Python's math module has no such
        // function, so the built-in `max` is modelled.
        var start := Max(noiseStart.value - LeadingMs, 0);
        return Range(start, segLen);
      }
      var end := EndOfRun(noiseStart.value, segLen);
      return Range(0, end);
    }
    return Range(0, segLen);
  }

  /**
   * `clean_audio(seg)` (clean_audio.py:277-281) on an already normalised
   * clip: trim the start, then trim the end of what is left; the result is
   * given in the offsets of the input clip.
   */
  method Clean(clip: Clip, th: Thresholds) returns (r: Trimmed)
    requires clip.Valid()
    ensures r == CleanRange(clip, th)
  {
    var first := TrimSilence(clip, TrimStart, th);
    match first
    case Empty =>
      return Empty;
    case Range(lo, _) =>
      var second := TrimSilence(Suffix(clip, lo), TrimEnd, th);
      return Range(lo, lo + second.hi);
  }

  /** One diagnostic window of `dump_rms`: the half-open ms range `[start, end)`. */
  datatype Window = Window(start: nat, end: nat)

  /**
   * The windows whose RMS `dump_rms` prints (clean_audio.py:271-275): one
   * per start offset 0 .. len - 11, each one slice wide. The printed dB
   * values themselves are not modelled.
   */
  method DumpRms(segLen: nat) returns (windows: seq<Window>)
    ensures |windows| == Max(segLen - SilenceSlice, 0)
    ensures forall i :: 0 <= i < |windows| ==>
              windows[i].start == i && windows[i].end - windows[i].start == SilenceSlice
    ensures forall i :: 0 <= i < |windows| ==> windows[i].end < segLen
  {
    windows := [];
    var count := if segLen < SilenceSlice then 0 else segLen - SilenceSlice;
    for idx := 0 to count
      invariant |windows| == idx
      invariant forall i :: 0 <= i < idx ==> windows[i] == Window(i, i + SilenceSlice)
    {
      windows := windows + [Window(idx, idx + SilenceSlice)];
    }
  }
}
