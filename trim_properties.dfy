/**
 * What the boundary scan of `trim_silence` guarantees, proved about the
 * functions of `TrimSpec`.
 */
module TrimProperties {
  import opened TrimSpec

  /** The RMS of the slice visited at position j of the scan. */
  function VisitedRms(rms: seq<real>, dir: Direction, j: nat): real
    requires j < |rms|
  {
    rms[SliceIndex(|rms|, dir, j)]
  }

  /** Once the gap rule has confirmed a run, later slices change nothing. */
  lemma {:induction false} ConfirmedIsFinal(rms: seq<real>, dir: Direction, th: Thresholds, j: nat, k: nat)
    requires j <= k <= |rms|
    requires StateAfter(rms, dir, th, j).Confirmed?
    ensures StateAfter(rms, dir, th, k) == StateAfter(rms, dir, th, j)
  {
    if j < k {
      ConfirmedIsFinal(rms, dir, th, j, k - 1);
    }
  }

  /**
   * The scan never opens a run (`noise_start` and `noise_peak` stay `None`)
   * exactly when none of the visited slices is strictly above the silence
   * threshold; a slice exactly at the threshold is quiet.
   */
  lemma {:induction false} IdleIffAllQuiet(rms: seq<real>, dir: Direction, th: Thresholds, k: nat)
    requires k <= |rms|
    ensures StateAfter(rms, dir, th, k) == Scanning(None, None)
        <==> forall j :: 0 <= j < k ==> VisitedRms(rms, dir, j) <= th.silence
  {
    if k > 0 {
      IdleIffAllQuiet(rms, dir, th, k - 1);
      StateAfterWellFormed(rms, dir, th, k - 1);
      if StateAfter(rms, dir, th, k) == Scanning(None, None) {
        assert StateAfter(rms, dir, th, k - 1) == Scanning(None, None);
        assert VisitedRms(rms, dir, k - 1) <= th.silence;
      } else if StateAfter(rms, dir, th, k - 1) == Scanning(None, None) {
        assert VisitedRms(rms, dir, k - 1) > th.silence;
      } else {
        var j :| 0 <= j < k - 1 && VisitedRms(rms, dir, j) > th.silence;
      }
    }
  }

  /** A clip none of whose full slices is noisy is returned unchanged, in both directions. */
  lemma NothingNoisyUnchanged(clip: Clip, dir: Direction, th: Thresholds)
    requires clip.Valid() && clip.lenMs >= SilenceSlice
    requires forall i :: 0 <= i < |clip.rms| ==> clip.rms[i] <= th.silence
    ensures Trim(clip, dir, th) == Range(0, clip.lenMs)
  {
    IdleIffAllQuiet(clip.rms, dir, th, |clip.rms|);
  }

  /**
   * While the scan runs, `noise_peak` is the largest RMS among all noisy
   * slices visited so far, in the current run and in every closed one:
   * the peak is never reset.
   */
  lemma {:induction false} PeakIsMaximum(rms: seq<real>, dir: Direction, th: Thresholds, k: nat)
    requires k <= |rms|
    requires StateAfter(rms, dir, th, k).Scanning?
    ensures var peak := StateAfter(rms, dir, th, k).noisePeak;
      && (peak.None? <==> forall j :: 0 <= j < k ==> VisitedRms(rms, dir, j) <= th.silence)
      && (peak.Some? ==>
            forall j :: 0 <= j < k && VisitedRms(rms, dir, j) > th.silence ==> VisitedRms(rms, dir, j) <= peak.value)
      && (peak.Some? ==>
            exists j :: 0 <= j < k && VisitedRms(rms, dir, j) > th.silence && VisitedRms(rms, dir, j) == peak.value)
  {
    if k > 0 {
      PeakIsMaximum(rms, dir, th, k - 1);
      var prev := StateAfter(rms, dir, th, k - 1).noisePeak;
      var peak := StateAfter(rms, dir, th, k).noisePeak;
      var v := VisitedRms(rms, dir, k - 1);
      if v > th.silence {
        if prev.Some? && prev.value >= v {
          var w :| 0 <= w < k - 1 && VisitedRms(rms, dir, w) > th.silence && VisitedRms(rms, dir, w) == prev.value;
          assert VisitedRms(rms, dir, w) == peak.value;
        } else {
          assert VisitedRms(rms, dir, k - 1) == peak.value;
        }
      } else if prev.Some? {
        var w :| 0 <= w < k - 1 && VisitedRms(rms, dir, w) > th.silence && VisitedRms(rms, dir, w) == prev.value;
        assert VisitedRms(rms, dir, w) == peak.value;
      }
    }
  }

  /**
   * A quiet slice while a run is open closes the run exactly when some
   * noisy slice seen so far in the scan exceeded the burst threshold;
   * otherwise the run stays open at the same start. The peak is kept.
   */
  lemma QuietSliceClosesRunIffBurst(rms: seq<real>, dir: Direction, th: Thresholds, k: nat)
    requires k < |rms|
    requires StateAfter(rms, dir, th, k).Scanning? && StateAfter(rms, dir, th, k).noiseStart.Some?
    requires VisitedRms(rms, dir, k) <= th.silence
    ensures StateAfter(rms, dir, th, k + 1).Scanning?
    ensures StateAfter(rms, dir, th, k + 1).noisePeak == StateAfter(rms, dir, th, k).noisePeak
    ensures StateAfter(rms, dir, th, k + 1).noiseStart.None?
        <==> exists j :: 0 <= j < k && VisitedRms(rms, dir, j) > th.silence && VisitedRms(rms, dir, j) > th.burst
    ensures StateAfter(rms, dir, th, k + 1).noiseStart.Some?
        ==> StateAfter(rms, dir, th, k + 1).noiseStart == StateAfter(rms, dir, th, k).noiseStart
  {
    StateAfterWellFormed(rms, dir, th, k);
    PeakIsMaximum(rms, dir, th, k);
  }

  /**
   * The gap rule: a scan step confirms a run exactly when a run is open and
   * the visited slice is noisy and starts more than `MaxNoise` ms from the
   * run start; the confirmed start is that run start, which lies before the
   * confirming slice in time for TRIM_START and after it for TRIM_END.
   */
  lemma GapRuleConfirms(rms: seq<real>, dir: Direction, th: Thresholds, k: nat)
    requires k < |rms|
    requires StateAfter(rms, dir, th, k).Scanning?
    ensures var s := StateAfter(rms, dir, th, k);
            var at := SliceIndex(|rms|, dir, k) * SilenceSlice;
      StateAfter(rms, dir, th, k + 1).Confirmed? <==>
        s.noiseStart.Some? && VisitedRms(rms, dir, k) > th.silence && Abs(at - s.noiseStart.value) > MaxNoise
    ensures var s := StateAfter(rms, dir, th, k);
            var at := SliceIndex(|rms|, dir, k) * SilenceSlice;
            var c := StateAfter(rms, dir, th, k + 1);
      c.Confirmed? ==>
        && s.noiseStart == Some(c.runStart)
        && (dir == TrimStart ==> c.runStart + MaxNoise < at)
        && (dir == TrimEnd ==> at + MaxNoise < c.runStart)
  {
    StateAfterWellFormed(rms, dir, th, k);
    var s := StateAfter(rms, dir, th, k);
    if s.noiseStart.Some? {
      var start := s.noiseStart.value;
      assert start == (start / SilenceSlice) * SilenceSlice;
    }
  }

  /**
   * When every full slice is noisy, the run opens at the first slice the
   * scan visits and is never closed.
   */
  lemma {:induction false} AllNoisyRunStartsAtEdge(rms: seq<real>, dir: Direction, th: Thresholds, k: nat)
    requires 1 <= k <= |rms|
    requires forall i :: 0 <= i < |rms| ==> rms[i] > th.silence
    ensures var first := SliceIndex(|rms|, dir, 0) * SilenceSlice;
            var s := StateAfter(rms, dir, th, k);
      s == Confirmed(first) || (s.Scanning? && s.noiseStart == Some(first))
  {
    if k > 1 {
      AllNoisyRunStartsAtEdge(rms, dir, th, k - 1);
    }
  }

  /** A clip whose full slices are all noisy is returned unchanged, in both directions. */
  lemma AllNoisyUnchanged(clip: Clip, dir: Direction, th: Thresholds)
    requires clip.Valid() && clip.lenMs >= SilenceSlice
    requires forall i :: 0 <= i < |clip.rms| ==> clip.rms[i] > th.silence
    ensures Trim(clip, dir, th) == Range(0, clip.lenMs)
  {
    AllNoisyRunStartsAtEdge(clip.rms, dir, th, |clip.rms|);
  }

  /**
   * A run that is open at position t of a START scan and starts at slice j
   * was opened at slice j, which is noisy, and no run was open just before
   * it.
   */
  lemma {:induction false} RunOpenedAt(rms: seq<real>, th: Thresholds, t: nat, j: nat)
    requires t <= |rms|
    requires StateAfter(rms, TrimStart, th, t).Scanning?
    requires StateAfter(rms, TrimStart, th, t).noiseStart == Some(j * SilenceSlice)
    ensures j < t
    ensures StateAfter(rms, TrimStart, th, j).Scanning?
    ensures StateAfter(rms, TrimStart, th, j).noiseStart.None?
    ensures rms[j] > th.silence
  {
    StateAfterWellFormed(rms, TrimStart, th, t);
    assert (j * SilenceSlice) / SilenceSlice == j;
    var prev := StateAfter(rms, TrimStart, th, t - 1);
    if prev.noiseStart.Some? {
      RunOpenedAt(rms, th, t - 1, j);
    }
  }

  /**
   * A run that is open at position t of a START scan and starts at slice j
   * has been open, with the same start, at every position u since it opened.
   */
  lemma {:induction false} RunOpenSince(rms: seq<real>, th: Thresholds, t: nat, j: nat, u: nat)
    requires t <= |rms|
    requires StateAfter(rms, TrimStart, th, t).Scanning?
    requires StateAfter(rms, TrimStart, th, t).noiseStart == Some(j * SilenceSlice)
    requires j < u <= t
    ensures StateAfter(rms, TrimStart, th, u).Scanning?
    ensures StateAfter(rms, TrimStart, th, u).noiseStart == Some(j * SilenceSlice)
  {
    if u < t {
      StateAfterWellFormed(rms, TrimStart, th, t);
      assert (j * SilenceSlice) / SilenceSlice == j;
      var prev := StateAfter(rms, TrimStart, th, t - 1);
      if prev.noiseStart.Some? {
        RunOpenSince(rms, th, t - 1, j, u);
      }
    }
  }

  /**
   * The gap rule fires on the slice visited at position c, and its decision
   * is the state after the first k slices.
   */
  ghost predicate ConfirmsAt(rms: seq<real>, dir: Direction, th: Thresholds, c: nat, k: nat)
    requires c < k <= |rms|
  {
    StateAfter(rms, dir, th, c).Scanning? && StateAfter(rms, dir, th, c + 1) == StateAfter(rms, dir, th, k)
  }

  /** A scan that ends confirmed was confirmed at one position, where it had been scanning until then. */
  lemma {:induction false} ConfirmingPosition(rms: seq<real>, dir: Direction, th: Thresholds, k: nat)
    requires k <= |rms|
    requires StateAfter(rms, dir, th, k).Confirmed?
    ensures exists c :: 0 <= c < k && ConfirmsAt(rms, dir, th, c, k)
  {
    if StateAfter(rms, dir, th, k - 1).Confirmed? {
      ConfirmingPosition(rms, dir, th, k - 1);
      var c :| 0 <= c < k - 1 && ConfirmsAt(rms, dir, th, c, k - 1);
      assert ConfirmsAt(rms, dir, th, c, k);
    } else {
      assert ConfirmsAt(rms, dir, th, k - 1, k);
    }
  }


  /**
   * One step of the re-scan against one step of the first scan, on the same
   * slice: while the first scan keeps its run at s open, the re-scan keeps
   * its run at 0 open and its peak stays at most the first scan's.
   */
  lemma ReplayStep(rms: seq<real>, rest: seq<real>, th: Thresholds, j: nat, i: nat, q: real, p: real)
    requires j + i < |rms| && i < |rest| && rest[i] == rms[j + i]
    requires q <= p
    requires var after := Step(rms, th, Scanning(Some(j * SilenceSlice), Some(p)), j + i);
      after.Scanning? && after.noiseStart == Some(j * SilenceSlice)
    ensures var after := Step(rms, th, Scanning(Some(j * SilenceSlice), Some(p)), j + i);
            var subAfter := Step(rest, th, Scanning(Some(0), Some(q)), i);
      && subAfter.Scanning? && subAfter.noiseStart == Some(0) && subAfter.noisePeak.Some?
      && after.noisePeak.Some? && subAfter.noisePeak.value <= after.noisePeak.value
  {
    assert (j + i) * SilenceSlice - j * SilenceSlice == i * SilenceSlice;
  }

  /**
   * The first step of the re-scan from a START run start j * SilenceSlice
   * opens a run at offset 0 with the opening slice as its peak, while the
   * first scan opens its run at the same slice with a peak at least as high.
   */
  lemma RescanOpens(rms: seq<real>, th: Thresholds, j: nat)
    requires j < |rms|
    requires StateAfter(rms, TrimStart, th, j + 1).Scanning?
    requires StateAfter(rms, TrimStart, th, j + 1).noiseStart == Some(j * SilenceSlice)
    ensures StateAfter(rms[j..], TrimStart, th, 1) == Scanning(Some(0), Some(rms[j]))
    ensures var full := StateAfter(rms, TrimStart, th, j + 1);
      full.noisePeak.Some? && rms[j] <= full.noisePeak.value
  {
    assert (j * SilenceSlice) / SilenceSlice == j;
    RunOpenedAt(rms, th, j + 1, j);
    assert rms[j..][0] == rms[j];
    assert StateAfter(rms[j..], TrimStart, th, 1) == Step(rms[j..], th, Scanning(None, None), 0);
    assert StateAfter(rms, TrimStart, th, j + 1) == Step(rms, th, StateAfter(rms, TrimStart, th, j), j);
  }

  /**
   * One step of the re-scan in terms of the two scan states: when the first
   * scan keeps its run at slice j open over slice j + t - 1, so does the
   * re-scan of `rms[j..]` keep its run at 0, with a peak no higher.
   */
  lemma ReplayNext(rms: seq<real>, th: Thresholds, j: nat, t: nat)
    requires 1 <= t && j + t <= |rms|
    requires var sub := StateAfter(rms[j..], TrimStart, th, t - 1);
             var full := StateAfter(rms, TrimStart, th, j + (t - 1));
      && sub.Scanning? && sub.noiseStart == Some(0) && sub.noisePeak.Some?
      && full.Scanning? && full.noiseStart == Some(j * SilenceSlice) && full.noisePeak.Some?
      && sub.noisePeak.value <= full.noisePeak.value
    requires StateAfter(rms, TrimStart, th, j + t).Scanning?
    requires StateAfter(rms, TrimStart, th, j + t).noiseStart == Some(j * SilenceSlice)
    ensures var sub := StateAfter(rms[j..], TrimStart, th, t);
            var full := StateAfter(rms, TrimStart, th, j + t);
      && sub.Scanning? && sub.noiseStart == Some(0) && sub.noisePeak.Some?
      && full.noisePeak.Some? && sub.noisePeak.value <= full.noisePeak.value
  {
    var rest := rms[j..];
    var sub := StateAfter(rest, TrimStart, th, t - 1);
    var full := StateAfter(rms, TrimStart, th, j + (t - 1));
    var q, p := sub.noisePeak.value, full.noisePeak.value;
    assert sub == Scanning(Some(0), Some(q));
    assert full == Scanning(Some(j * SilenceSlice), Some(p));
    assert rest[t - 1] == rms[j + (t - 1)];
    ReplayStep(rms, rest, th, j, t - 1, q, p);
    assert StateAfter(rest, TrimStart, th, t) == Step(rest, th, Scanning(Some(0), Some(q)), t - 1);
    assert StateAfter(rms, TrimStart, th, j + t) == Step(rms, th, Scanning(Some(j * SilenceSlice), Some(p)), j + (t - 1));
  }

  /**
   * Re-scanning the slices from a START run start at slice j replays the
   * run: while the first scan has it open, after j + t slices, the re-scan
   * of `rms[j..]` has a run open at offset 0 after t slices, and its peak is
   * at most the first scan's peak, which also covers the slices before the
   * run.
   */
  lemma {:induction false} RescanReplaysRun(rms: seq<real>, th: Thresholds, j: nat, t: nat)
    requires 1 <= t && j + t <= |rms|
    requires StateAfter(rms, TrimStart, th, j + t).Scanning?
    requires StateAfter(rms, TrimStart, th, j + t).noiseStart == Some(j * SilenceSlice)
    ensures var sub := StateAfter(rms[j..], TrimStart, th, t);
            var full := StateAfter(rms, TrimStart, th, j + t);
      && sub.Scanning? && sub.noiseStart == Some(0) && sub.noisePeak.Some?
      && full.noisePeak.Some? && sub.noisePeak.value <= full.noisePeak.value
  {
    if t == 1 {
      RescanOpens(rms, th, j);
    } else {
      assert (j * SilenceSlice) / SilenceSlice == j;
      RunOpenSince(rms, th, j + t, j, j + (t - 1));
      RescanReplaysRun(rms, th, j, t - 1);
      ReplayNext(rms, th, j, t);
    }
  }

  /**
   * Where a START scan confirms its run at slice j, on slice c, the re-scan
   * of the slices from j confirms a run at offset 0 on the same slice.
   */
  lemma RescanConfirmsAtSameSlice(rms: seq<real>, th: Thresholds, j: nat, c: nat)
    requires c < |rms|
    requires StateAfter(rms, TrimStart, th, c).Scanning?
    requires StateAfter(rms, TrimStart, th, c + 1) == Confirmed(j * SilenceSlice)
    ensures j < c
    ensures StateAfter(rms[j..], TrimStart, th, c - j + 1) == Confirmed(0)
  {
    GapRuleConfirms(rms, TrimStart, th, c);
    RunOpenedAt(rms, th, c, j);
    assert j + (c - j) == c;
    RescanReplaysRun(rms, th, j, c - j);
    RescanConfirms(rms, rms[j..], th, j, c);
  }

  /**
   * When a START scan ends with a confirmed run at slice j, re-scanning the
   * slices from j confirms a run at offset 0.
   */
  lemma RescanFromConfirmedStart(rms: seq<real>, th: Thresholds, j: nat)
    requires StateAfter(rms, TrimStart, th, |rms|) == Confirmed(j * SilenceSlice)
    ensures j < |rms|
    ensures StateAfter(rms[j..], TrimStart, th, |rms| - j) == Confirmed(0)
  {
    ConfirmingPosition(rms, TrimStart, th, |rms|);
    var c :| 0 <= c < |rms| && ConfirmsAt(rms, TrimStart, th, c, |rms|);
    RescanConfirmsAtSameSlice(rms, th, j, c);
    ConfirmedIsFinal(rms[j..], TrimStart, th, c - j + 1, |rms| - j);
  }

  /**
   * Trimming the start again after a START trim that the gap rule confirmed
   * changes nothing: the re-scan confirms a run at offset 0.
   */
  lemma StartTrimIdempotentWhenConfirmed(clip: Clip, th: Thresholds)
    requires clip.Valid() && clip.lenMs >= SilenceSlice
    requires StateAfter(clip.rms, TrimStart, th, |clip.rms|).Confirmed?
    ensures var r := Trim(clip, TrimStart, th);
      r.Range? && Trim(Suffix(clip, r.lo), TrimStart, th) == Range(0, r.hi - r.lo)
  {
    var s := StateAfter(clip.rms, TrimStart, th, |clip.rms|).runStart;
    StateAfterWellFormed(clip.rms, TrimStart, th, |clip.rms|);
    var j := s / SilenceSlice;
    assert s == j * SilenceSlice;
    RescanFromConfirmedStart(clip.rms, th, j);
    assert Trim(clip, TrimStart, th) == Range(s, clip.lenMs);
    var sub := Suffix(clip, s);
    assert sub.rms == clip.rms[j..];
    assert Trim(sub, TrimStart, th) == Finish(sub.lenMs, TrimStart, Confirmed(0));
  }

  /** The re-scan confirms its run at offset 0 on the slice c where the first scan confirmed its run at slice j. */
  lemma RescanConfirms(rms: seq<real>, rest: seq<real>, th: Thresholds, j: nat, c: nat)
    requires j < c < |rms| && rest == rms[j..]
    requires StateAfter(rms, TrimStart, th, c).Scanning?
    requires StateAfter(rms, TrimStart, th, c + 1) == Confirmed(j * SilenceSlice)
    requires StateAfter(rest, TrimStart, th, c - j).Scanning?
    requires StateAfter(rest, TrimStart, th, c - j).noiseStart == Some(0)
    ensures StateAfter(rest, TrimStart, th, c - j + 1) == Confirmed(0)
  {
    GapRuleConfirms(rms, TrimStart, th, c);
    assert rest[c - j] == rms[c];
    assert (c - j) * SilenceSlice == c * SilenceSlice - j * SilenceSlice;
  }

  /**
   * A stretch of quiet slices changes nothing when no run is open or the
   * open run's peak does not exceed the burst threshold.
   */
  lemma {:induction false} QuietStretch(rms: seq<real>, dir: Direction, th: Thresholds, a: nat, b: nat)
    requires a <= b <= |rms|
    requires StateAfter(rms, dir, th, a).Scanning?
    requires var s := StateAfter(rms, dir, th, a);
      !(s.noiseStart.Some? && s.noisePeak.Some? && s.noisePeak.value > th.burst)
    requires forall u :: a <= u < b ==> VisitedRms(rms, dir, u) <= th.silence
    ensures StateAfter(rms, dir, th, b) == StateAfter(rms, dir, th, a)
  {
    if a < b {
      QuietStretch(rms, dir, th, a, b - 1);
      assert VisitedRms(rms, dir, b - 1) <= th.silence;
    }
  }

  /**
   * A 310 ms clip with a loud click in its first slice and two noisy slices
   * below the burst threshold at 100 ms and 300 ms; all else is quiet.
   */
  predicate ClickThenSoftSlices(clip: Clip, th: Thresholds) {
    && clip.lenMs == 310 && |clip.rms| == 31
    && th.silence < th.burst
    && clip.rms[0] > th.burst
    && th.silence < clip.rms[10] <= th.burst
    && th.silence < clip.rms[30] <= th.burst
    && forall i :: 0 <= i < 31 && i != 0 && i != 10 && i != 30 ==> clip.rms[i] <= th.silence
  }

  /**
   * Outside the gap-confirmed case, trimming the start twice can cut more
   * than trimming it once: the first pass ends with a run open at 300 ms and
   * keeps the 250 ms lead from 50 ms; in that suffix the click is gone, so
   * the soft slice at 100 ms (50 ms into the suffix) opens a run that is
   * never closed and the gap rule confirms it.
   */
  lemma StartTrimNotIdempotentWithLead(clip: Clip, th: Thresholds)
    requires ClickThenSoftSlices(clip, th)
    ensures Trim(clip, TrimStart, th) == Range(50, 310)
    ensures Trim(Suffix(clip, 50), TrimStart, th) == Range(50, 260)
  {
    var rms := clip.rms;
    var p := rms[0];
    assert StateAfter(rms, TrimStart, th, 1) == Scanning(Some(0), Some(p));
    assert StateAfter(rms, TrimStart, th, 2) == Scanning(None, Some(p));
    QuietStretch(rms, TrimStart, th, 2, 10);
    assert StateAfter(rms, TrimStart, th, 11) == Scanning(Some(100), Some(p));
    assert StateAfter(rms, TrimStart, th, 12) == Scanning(None, Some(p));
    QuietStretch(rms, TrimStart, th, 12, 30);
    assert StateAfter(rms, TrimStart, th, 31) == Scanning(Some(300), Some(p));

    var rest := Suffix(clip, 50).rms;
    assert forall i :: 0 <= i < 26 ==> rest[i] == rms[i + 5];
    QuietStretch(rest, TrimStart, th, 0, 5);
    assert StateAfter(rest, TrimStart, th, 6) == Scanning(Some(50), Some(rms[10]));
    QuietStretch(rest, TrimStart, th, 6, 25);
    assert StateAfter(rest, TrimStart, th, 26) == Confirmed(50);
  }

  /**
   * Noisy slices that start within `MaxNoise` ms of the open run's start
   * keep that run open.
   */
  lemma {:induction false} NoisyStretch(rms: seq<real>, dir: Direction, th: Thresholds, a: nat, b: nat, x: nat)
    requires a <= b <= |rms|
    requires StateAfter(rms, dir, th, a).Scanning? && StateAfter(rms, dir, th, a).noiseStart == Some(x)
    requires forall u :: a <= u < b ==>
      VisitedRms(rms, dir, u) > th.silence && Abs(SliceIndex(|rms|, dir, u) * SilenceSlice - x) <= MaxNoise
    ensures StateAfter(rms, dir, th, b).Scanning? && StateAfter(rms, dir, th, b).noiseStart == Some(x)
  {
    if a < b {
      NoisyStretch(rms, dir, th, a, b - 1, x);
      assert VisitedRms(rms, dir, b - 1) > th.silence;
    }
  }

  /** A 1000 ms clip that is loud (above both thresholds) from 300 ms to 700 ms and quiet elsewhere. */
  predicate LoudFrom300To700(clip: Clip, th: Thresholds) {
    && clip.lenMs == 1000 && |clip.rms| == 100
    && th.silence < th.burst
    && (forall i :: 30 <= i < 70 ==> clip.rms[i] > th.burst)
    && (forall i :: 0 <= i < 100 && !(30 <= i < 70) ==> clip.rms[i] <= th.silence)
  }

  /**
   * On that clip the START pass confirms the run at 300 ms (at the slice
   * starting at 410 ms) and keeps [300, 1000). The END pass over that 700 ms
   * suffix opens a run at its last loud slice, 390 ms in, confirms it at
   * 280 ms and keeps 390 + 10 + 200 = 600 ms, so the cleaned clip is
   * [300, 900) of the input.
   */
  lemma LoudFrom300To700Trims(clip: Clip, th: Thresholds)
    requires LoudFrom300To700(clip, th)
    ensures Trim(clip, TrimStart, th) == Range(300, 1000)
    ensures Trim(Suffix(clip, 300), TrimEnd, th) == Range(0, 600)
    ensures CleanRange(clip, th) == Range(300, 900)
  {
    var rms := clip.rms;
    IdleIffAllQuiet(rms, TrimStart, th, 30);
    assert StateAfter(rms, TrimStart, th, 31) == Scanning(Some(300), Some(rms[30]));
    NoisyStretch(rms, TrimStart, th, 31, 41, 300);
    assert StateAfter(rms, TrimStart, th, 42) == Confirmed(300);
    ConfirmedIsFinal(rms, TrimStart, th, 42, 100);

    var rest := Suffix(clip, 300).rms;
    assert |rest| == 70;
    assert forall i :: 0 <= i < 70 ==> rest[i] == rms[i + 30];
    IdleIffAllQuiet(rest, TrimEnd, th, 30);
    assert StateAfter(rest, TrimEnd, th, 31) == Scanning(Some(390), Some(rest[39]));
    NoisyStretch(rest, TrimEnd, th, 31, 41, 390);
    assert StateAfter(rest, TrimEnd, th, 42) == Confirmed(390);
    ConfirmedIsFinal(rest, TrimEnd, th, 42, 70);
  }
}
