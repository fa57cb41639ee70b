/**
 * Recognising audio files by extension: `is_audio_extension`
 * (clean_audio.py:48-49), `CleanAudio.is_audio_file` (clean_audio.py:204-206)
 * and the decoder choice made by `CleanAudio.run` (clean_audio.py:286-300).
 */
module AudioExtensions {

  /** `is_audio_extension(ext)`: membership in the list `['.wav', '.mp3', '.3gp']`. */
  predicate IsAudioExtension(ext: string) {
    ext in [".wav", ".mp3", ".3gp"]
  }

  /** The position of the last c in s, or -1 (Python's `str.rfind`). */
  function LastIndexOf(s: string, c: char): (i: int)
    ensures -1 <= i < |s|
    ensures i >= 0 ==> s[i] == c
    ensures forall j :: i < j < |s| ==> s[j] != c
  {
    if |s| == 0 then -1
    else if s[|s| - 1] == c then |s| - 1
    else LastIndexOf(s[..|s| - 1], c)
  }

  /**
   * Python's `os.path.splitext` on a POSIX path: the extension starts at the
   * last '.' after the last '/', unless only dots precede it in the last
   * path component (so ".bashrc" has no extension).
   */
  function SplitExt(p: string): (parts: (string, string))
    ensures parts.0 + parts.1 == p
    ensures parts.1 != [] ==> parts.1[0] == '.'
    ensures forall j :: 0 < j < |parts.1| ==> parts.1[j] != '.' && parts.1[j] != '/'
  {
    var sep := LastIndexOf(p, '/');
    var dot := LastIndexOf(p, '.');
    if dot > sep && exists i :: sep < i < dot && p[i] != '.' then
      (p[..dot], p[dot..])
    else
      (p, "")
  }

  /** `CleanAudio.is_audio_file(filename)`: the extension is one of `('.mp3', '.wav', '.3gp')`. */
  predicate IsAudioFile(filename: string) {
    SplitExt(filename).1 in [".mp3", ".wav", ".3gp"]
  }

  /** The two allow-lists of the source, written in different orders, accept the same extensions. */
  lemma AudioFileIffAudioExtension(filename: string)
    ensures IsAudioFile(filename) <==> IsAudioExtension(SplitExt(filename).1)
  {
  }

  /** A name is an audio file only if it ends in one of the three extensions. */
  lemma AudioFileEndsWithExtension(filename: string)
    requires IsAudioFile(filename)
    ensures |filename| >= 4 && IsAudioExtension(filename[|filename| - 4..])
  {
    var (root, ext) := SplitExt(filename);
    assert filename[|filename| - 4..] == ext;
  }

  lemma {:induction false} LastIndexOfAppend(s: string, t: string, c: char)
    requires c !in t
    ensures LastIndexOf(s + t, c) == LastIndexOf(s, c)
  {
    if |t| > 0 {
      assert (s + t)[..|s + t| - 1] == s + t[..|t| - 1];
      LastIndexOfAppend(s, t[..|t| - 1], c);
    } else {
      assert s + t == s;
    }
  }

  /**
   * Appending an audio extension to a name whose last character is neither
   * '/' nor '.' gives an audio file, and `splitext` recovers the extension.
   */
  lemma AudioFileFromParts(root: string, ext: string)
    requires IsAudioExtension(ext)
    requires |root| > 0 && root[|root| - 1] != '/' && root[|root| - 1] != '.'
    ensures SplitExt(root + ext) == (root, ext)
    ensures IsAudioFile(root + ext)
  {
    var p := root + ext;
    assert ext == ['.'] + ext[1..];
    assert '.' !in ext[1..] && '/' !in ext[1..];
    assert '/' !in ext;
    LastIndexOfAppend(root, ext, '/');
    LastIndexOfAppend(root + ['.'], ext[1..], '.');
    assert p == (root + ['.']) + ext[1..];
    assert LastIndexOf(p, '.') == |root|;
    assert LastIndexOf(p, '/') < |root| - 1;
    assert p[|root| - 1] != '.';
    assert p[..|root|] == root && p[|root|..] == ext;
  }

  /** What `CleanAudio.run` does with a file, by its extension without the dot. */
  datatype Action = DecodeMp3 | DecodeWav | SkipUnconvertible | RejectUnrecognised

  /** The dispatch of `CleanAudio.run` on `ext = path.splitext(ifile)[1][1:]` (clean_audio.py:286-300). */
  function Dispatch(ext: string): Action {
    if ext == "mp3" then DecodeMp3
    else if ext == "wav" then DecodeWav
    else if ext == "3gp" then SkipUnconvertible
    else RejectUnrecognised
  }

  /** Python's `s[1:]`: drops the first character, if any. */
  function DropFirst(s: string): string {
    if |s| == 0 then s else s[1..]
  }

  /**
   * `run` recognises exactly the audio files of the allow-list, and of
   * those it decodes the `.mp3` and `.wav` ones and skips `.3gp`.
   */
  lemma DispatchMatchesAllowList(filename: string)
    ensures var ext := SplitExt(filename).1;
      && (Dispatch(DropFirst(ext)) != RejectUnrecognised <==> IsAudioFile(filename))
      && (Dispatch(DropFirst(ext)) == SkipUnconvertible <==> ext == ".3gp")
  {
    var ext := SplitExt(filename).1;
    if ext != [] {
      var rest := DropFirst(ext);
      assert ext == ['.'] + rest;
      assert rest == "mp3" <==> ext == ".mp3";
      assert rest == "wav" <==> ext == ".wav";
      assert rest == "3gp" <==> ext == ".3gp";
    }
  }
}
