# clean_audio — a Dafny model of the silence trimmer

`clean_audio.py` prepares short spoken-word clips for Anki flashcards: it
normalises each clip, cuts the leading and trailing silence, and, in Anki mode,
processes only the media files whose content changed since the last run. This
project models the decision logic of that script and proves what it guarantees:

- **`CleanAudio.trim_silence`**: the boundary scan over 10 ms slices. It
  tracks an open noise run (`noise_start`) and the loudest noisy slice seen
  (`noise_peak`). A quiet slice closes the run only when the peak is above the
  burst threshold. A run is confirmed once a noisy slice starts more than
  100 ms from the run start. The result is `[]` or a ms range of the clip.
  The TRIM_START scan goes forward and the TRIM_END scan goes backward. The
  spec is written as functions (`TrimSpec`). The loop the source runs, with
  its locals and early returns, is a method proved equal to that spec
  (`CleanAudio.TrimSilence`).
- **`clean_audio`**: trim the start, then trim the end of what is left
  (`CleanAudio.Clean`, `TrimSpec.CleanRange`).
- **`dump_rms`**: the sliding windows whose RMS it prints (`CleanAudio.DumpRms`).
- **The extension allow-lists**: `is_audio_extension`, `is_audio_file` and
  Python's `os.path.splitext`, plus the decoder dispatch in `run`
  (`AudioExtensions`).
- **`AudioFiles.get_new_audio_files`**: the walk that selects new or changed
  audio files. It updates the stored basename→SHA-1 map in place
  (`ChangeTracking.AudioFiles`).

A clip is its length in ms and the RMS of every full slice (`TrimSpec.Clip`).
The two thresholds are the absolute RMS values that the source derives from
−50 dB and −20 dB. The constants 10, 100, 200 and 250 ms are named constants
in `TrimSpec`. A file the walk yields is its path, basename, extension and
current hash. The hash is an opaque string.

Files: `trim_spec.dfy` (scan spec), `trim_properties.dfy` (scan properties),
`clean_audio.dfy` (the methods), `findings.dfy` (the `math.max` defect),
`audio_extensions.dfy`, `change_tracking.dfy`.

### Where the design description and the code differ (the model follows the code)

- **Closing a run.** The design description says a quiet slice closes a run
  whose peak never exceeded the burst threshold. The code closes it only
  when the peak *is* above the burst threshold (clean_audio.py:257). See
  `QuietSliceClosesRunIffBurst`.
- **The peak.** The description says the peak is tracked since the run
  start. The code never resets `noise_peak`. It is the maximum over all
  noisy slices scanned so far (`PeakIsMaximum`).
- **START run open at end of scan.** The description keeps it from its start
  with no margin. The code moves the start back by a 250 ms lead
  (clean_audio.py:262).
- **Idempotence of the START trim.** It holds when the gap rule confirmed the
  run (`StartTrimIdempotentWhenConfirmed`). Because of the lead, it does not
  hold in general (`StartTrimNotIdempotentWithLead`).
- **The worked 1000 ms example.** The END pass keeps 600 ms of the 700 ms
  suffix, so the result is [300, 900). The description says 510 ms
  (`LoudFrom300To700Trims`).
- **The threshold check.** The description asks for a check that the burst
  threshold is above the silence threshold. The code has none; its thresholds
  are the fixed constants −20 and −50 dB. Nothing in the model depends on that
  order.

## Model

| member | source | states |
|---|---|---|
| `TrimSpec.Trim` | clean_audio.py:208-269 | `[]` exactly when the clip is shorter than one slice. Otherwise a slice-aligned range of the clip at least one slice long: a suffix for TRIM_START, a prefix for TRIM_END. |
| `TrimSpec.StateAfterWellFormed` | clean_audio.py:232-258 | A run start, open or confirmed, is the start offset of a full slice the scan has already visited. An open run always has a peak. |
| `TrimSpec.CleanRange` | clean_audio.py:277-281 | Trimming the start and then the end gives `[]` exactly for a clip shorter than one slice, and otherwise a non-empty range of the input. |
| `CleanAudio.TrimSilence` | clean_audio.py:208-269 | The source's loop (locals, early returns, end-of-scan branches) returns exactly `TrimSpec.Trim`. |
| `CleanAudio.Clean` | clean_audio.py:277-281 | The two trims in sequence, the END trim applied to the suffix the START trim kept, return `TrimSpec.CleanRange`. |
| `CleanAudio.EndOfRun` | clean_audio.py:249-252 | The END cut is never past the clip end and never past the run start plus one slice and the 200 ms margin. It equals one of the two. |
| `CleanAudio.DumpRms` | clean_audio.py:271-275 | Exactly `max(0, len - 10)` windows. Window i starts at i, is one slice wide and ends before the clip end. |
| `TrimProperties.ConfirmedIsFinal` | clean_audio.py:245-252 | Once the gap rule confirms a run, no later slice changes the outcome (the early return). |
| `TrimProperties.IdleIffAllQuiet` | clean_audio.py:236-244 | No run is ever opened (both locals stay `None`) iff no visited slice is strictly above the silence threshold. |
| `TrimProperties.NothingNoisyUnchanged` | clean_audio.py:260-269 | If no full slice is above the silence threshold, the clip is returned unchanged in both directions. |
| `TrimProperties.PeakIsMaximum` | clean_audio.py:237-240 | While scanning, `noise_peak` is `None` iff no noisy slice was seen. Otherwise it is the maximum RMS over all noisy slices seen, closed runs included. |
| `TrimProperties.QuietSliceClosesRunIffBurst` | clean_audio.py:253-258 | A quiet slice during an open run closes it iff some noisy slice seen so far exceeded the burst threshold. Otherwise the run keeps its start. The peak is unchanged. |
| `TrimProperties.GapRuleConfirms` | clean_audio.py:242-252 | A step confirms iff a run is open and the slice is noisy and starts more than 100 ms from the run start. The confirmed start lies before the slice for START and after it for END. |
| `TrimProperties.AllNoisyRunStartsAtEdge` | clean_audio.py:232-248 | If every slice is noisy, the run opens at the first visited slice and keeps that start until it is confirmed. |
| `TrimProperties.AllNoisyUnchanged` | clean_audio.py:228-269 | If every full slice is noisy, the clip is returned unchanged in both directions. |
| `TrimProperties.RunOpenedAt` | clean_audio.py:242-244 | In a START scan, an open run starting at slice j was opened at slice j. That slice is noisy, and no run was open before it. |
| `TrimProperties.RunOpenSince` | clean_audio.py:253-258 | In a START scan, an open run has kept the same start at every position since it opened. |
| `TrimProperties.ConfirmingPosition` | clean_audio.py:245-252 | A scan that ends confirmed was confirmed at one position, where it had been scanning until then. |
| `TrimProperties.RescanOpens` | clean_audio.py:236-244 | The re-scan from a START run start opens its run at 0 on the first slice, with that slice as its peak. The first scan's peak there is at least as high. |
| `TrimProperties.ReplayStep` | clean_audio.py:233-258 | On the same slice, one step of a re-scan from the run start keeps its run at 0 open and its peak no higher, whenever the first scan keeps its run open. |
| `TrimProperties.ReplayNext` | clean_audio.py:233-258 | The same step stated on the two scan states after t - 1 and j + t - 1 slices. |
| `TrimProperties.RescanReplaysRun` | clean_audio.py:232-258 | Re-scanning from a START run start keeps a run open at 0, with a peak no higher, at every position where the first scan still has its run open. |
| `TrimProperties.RescanConfirms` | clean_audio.py:245-248 | The re-scan confirms its run at 0 on the slice where the first scan confirmed its run. |
| `TrimProperties.RescanConfirmsAtSameSlice` | clean_audio.py:245-248 | Where a START scan confirms its run at slice j, the re-scan of the slices from j confirms at the same slice. |
| `TrimProperties.RescanFromConfirmedStart` | clean_audio.py:245-248 | If a START scan ends confirmed at slice j, re-scanning the slices from j ends confirmed at 0. |
| `TrimProperties.StartTrimIdempotentWhenConfirmed` | clean_audio.py:245-248 | Trimming the start again after a gap-confirmed START trim returns the trimmed clip unchanged. |
| `TrimProperties.QuietStretch` | clean_audio.py:253-258 | Quiet slices change nothing when no run is open or the open run's peak is not above the burst threshold. |
| `TrimProperties.StartTrimNotIdempotentWithLead` | clean_audio.py:260-263 | For a 310 ms clip with a loud click at 0 and soft noise at 100 ms and 300 ms, the first START trim keeps [50, 310). Trimming that again cuts 50 ms more. |
| `TrimProperties.NoisyStretch` | clean_audio.py:242-245 | Noisy slices within 100 ms of the open run's start keep the run open with the same start. |
| `TrimProperties.LoudFrom300To700Trims` | clean_audio.py:277-281 | A 1000 ms clip loud from 300 to 700 ms is trimmed to [300, 1000) by START. END on that suffix keeps [0, 600). The clean result is [300, 900). |
| `Findings.TrimAsWritten` | clean_audio.py:260-263 | As written, the call raises iff a START scan of a clip of at least one slice ends with a run open. Otherwise it agrees with `TrimSpec.Trim`. |
| `Findings.MathMaxRaises` | clean_audio.py:262 | A 10 ms clip with one soft noisy slice makes the START trim raise, where the corrected trim keeps [0, 10). |
| `AudioExtensions.SplitExt` | clean_audio.py:205 | `path.splitext` splits the name into root + extension. The extension is empty or starts with its only '.', and contains no '/'. |
| `AudioExtensions.AudioFileIffAudioExtension` | clean_audio.py:204-206 | `is_audio_file`'s tuple and `is_audio_extension`'s list accept the same extensions. |
| `AudioExtensions.AudioFileEndsWithExtension` | clean_audio.py:204-206 | An audio file's name ends in `.wav`, `.mp3` or `.3gp`. |
| `AudioExtensions.AudioFileFromParts` | clean_audio.py:204-206 | A name ending in an allowed extension, with a character other than '/' or '.' before it, is an audio file, and `splitext` recovers that extension. |
| `AudioExtensions.DispatchMatchesAllowList` | clean_audio.py:286-300 | `run` rejects a file as unrecognised iff it is not an audio file. Of the audio files it decodes `.mp3` and `.wav` and skips exactly `.3gp`. |
| `ChangeTracking.AudioFiles.GetNewAudioFiles` | clean_audio.py:95-116 | The new stored map is `HashesAfter` of the old one, and the returned list is `SelectedAfter`: the walk in order, updating the map in place. |
| `ChangeTracking.AudioFiles.constructor` | clean_audio.py:61-66 | Starting from the loaded hashes, the object holds the updated map and the list of new files. |
| `ChangeTracking.HashesAfterSpec` | clean_audio.py:100-111 | After the walk, the keys are the old ones plus every audio basename. Each audio basename holds the hash of the last file walked with that name. Other entries are unchanged. |
| `ChangeTracking.SelectedAreChanged` | clean_audio.py:104-114 | If no two audio files share a basename, a file is selected iff it has an allowed extension and its basename is absent from the stored map or stored with a different hash. The walk order is kept. |
| `ChangeTracking.SelectedAreAudio` | clean_audio.py:100-114 | Every selected path belongs to a walked file with an allowed extension. |
| `ChangeTracking.RescanSelectsNothing` | clean_audio.py:95-116 | Walking the same files again against the map the walk stored selects nothing, if no two audio files share a basename. |

## Left out

- Decoding, export, mono conversion and `normalize` (pydub) are foreign library calls and float DSP. The model takes the normalised mono clip and its per-slice RMS values as inputs. `clean_audio` is modelled from the point after `normalize`.
- `db_to_float`, `ratio_to_db` and the RMS computation are floating-point `pow`, `log` and sums. The thresholds and the RMS values are parameters, and `DumpRms` yields the windows, not the dB values printed for them.
- The file system and persistence are I/O: `os.walk`, `glob`, `listdir`, reading files and hashing them with SHA-1 (`get_file_sha1`), loading and saving the JSON info file, and `update_hashes`, which re-hashes the selected files before saving. So are the input expansion in `CleanAudio.__init__`, the copy-back through a temporary directory, and `makedirs`. The walk is given as a list of entries with their hashes. A missing info file is the empty map.
- Anki profile discovery (sqlite, platform paths), the Windows PATH edit, argparse, the interactive profile prompt and the `AnkiProfile` delegation methods are environment and UI. They are not modelled.
- All printing and progress output is left out.
- `TrimSpec.Trim`: the empty result stands for the Python list `[]` that the source returns. What later code does with a list rather than an audio segment (the export would fail) is not modelled.
- `CleanAudio.DumpRms`: as the source's `range(len - 10)` does, it never evaluates the last full window, `[len - 10, len)`.

## Findings

| source | as written | input that shows it | evidently intended | confidence | as-written member | corrected member |
|---|---|---|---|---|---|---|
| clean_audio.py:262 | `math.max(noise_start - leading_ms, 0)`: Python's `math` module has no `max`, so a START scan that ends with a run still open raises `AttributeError` | a 10 ms clip whose one slice is above the silence threshold but not the burst threshold, trimmed at the start | the built-in `max`: keep the clip from 250 ms before the open run, clamped at 0 | not executed | `Findings.TrimAsWritten` (exhibited by `Findings.MathMaxRaises`) | `TrimSpec.Trim` |
