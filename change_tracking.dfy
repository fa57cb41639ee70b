/**
 * Change detection of class `AudioFiles` (clean_audio.py:60-116): the
 * stored SHA-1 per file basename (`self._info['files']`) and the walk of
 * `get_new_audio_files`, which selects the audio files whose hash is new or
 * different and records the current hash of each.
 *
 * The directory walk and the hashing are I/O: a walk is given as the list of
 * files it yields, each with its path, basename, extension and current hash.
 */
module ChangeTracking {
  import opened AudioExtensions

  /** One file yielded by the walk: `name`, `basename`, `splitext(name)[1]` and `get_file_sha1(name)`. */
  datatype FileEntry = FileEntry(path: string, basename: string, ext: string, sha1: string)

  /** Stored hash per basename. */
  type Hashes = map<string, string>

  /** The file is looked at at all (clean_audio.py:100). */
  predicate Considered(e: FileEntry) {
    IsAudioExtension(e.ext)
  }

  /** The file's basename is unknown or its stored hash differs (clean_audio.py:104-107). */
  predicate Changed(m: Hashes, e: FileEntry) {
    e.basename !in m || m[e.basename] != e.sha1
  }

  function Init<T>(s: seq<T>): seq<T>
    requires |s| > 0
  {
    s[..|s| - 1]
  }

  function Last<T>(s: seq<T>): T
    requires |s| > 0
  {
    s[|s| - 1]
  }

  /** The stored hashes after the walk has visited the files of es. */
  function HashesAfter(m: Hashes, es: seq<FileEntry>): Hashes {
    if es == [] then m
    else
      var before := HashesAfter(m, Init(es));
      var e := Last(es);
      if Considered(e) then before[e.basename := e.sha1] else before
  }

  /** The paths `get_new_audio_files` has appended after visiting the files of es. */
  function SelectedAfter(m: Hashes, es: seq<FileEntry>): seq<string> {
    if es == [] then []
    else
      var e := Last(es);
      SelectedAfter(m, Init(es))
        + if Considered(e) && Changed(HashesAfter(m, Init(es)), e) then [e.path] else []
  }

  /** The class `AudioFiles`, reduced to its stored hashes and its list of new files. */
  class AudioFiles {
    /** `self._info['files']`, basename to stored SHA-1. */
    var files: Hashes
    /** `self.audio_files`. */
    var audioFiles: seq<string>

    /**
     * `AudioFiles.__init__`: starts from the loaded hashes (empty when there
     * is no info file) and runs `get_new_audio_files` over the walk.
     */
    constructor (stored: Hashes, walk: seq<FileEntry>)
      ensures files == HashesAfter(stored, walk)
      ensures audioFiles == SelectedAfter(stored, walk)
    {
      files := stored;
      audioFiles := [];
      new;
      audioFiles := GetNewAudioFiles(walk);
    }

    /** `get_new_audio_files` (clean_audio.py:95-116). */
    method GetNewAudioFiles(walk: seq<FileEntry>) returns (selected: seq<string>)
      modifies this`files
      ensures files == HashesAfter(old(files), walk)
      ensures selected == SelectedAfter(old(files), walk)
    {
      selected := [];
      for i := 0 to |walk|
        invariant files == HashesAfter(old(files), walk[..i])
        invariant selected == SelectedAfter(old(files), walk[..i])
      {
        var e := walk[i];
        assert Init(walk[..i + 1]) == walk[..i];
        if IsAudioExtension(e.ext) {
          var update := true;
          if e.basename in files {
            var oldSha1 := files[e.basename];
            if oldSha1 == e.sha1 {
              update := false;
            } else {
              files := files[e.basename := e.sha1];
            }
          } else {
            files := files[e.basename := e.sha1];
          }
          if update {
            selected := selected + [e.path];
          }
        }
      }
      assert walk[..|walk|] == walk;
    }
  }

  /** The basenames of the audio files among es. */
  function ConsideredNames(es: seq<FileEntry>): set<string> {
    set e | e in es && Considered(e) :: e.basename
  }

  /** No later audio file in es has the same basename as es[i]. */
  predicate LastWithName(es: seq<FileEntry>, i: nat)
    requires i < |es|
  {
    forall j :: i < j < |es| && Considered(es[j]) ==> es[j].basename != es[i].basename
  }

  /**
   * After the walk, the stored hashes cover the old basenames and those of
   * all audio files; each audio basename holds the hash of the last file
   * walked with that basename; every other entry is untouched.
   */
  lemma {:induction false} HashesAfterSpec(m: Hashes, es: seq<FileEntry>)
    ensures HashesAfter(m, es).Keys == m.Keys + ConsideredNames(es)
    ensures forall k :: k in m && k !in ConsideredNames(es) ==> HashesAfter(m, es)[k] == m[k]
    ensures forall i :: 0 <= i < |es| && Considered(es[i]) && LastWithName(es, i) ==>
              HashesAfter(m, es)[es[i].basename] == es[i].sha1
  {
    if es != [] {
      var init, e := Init(es), Last(es);
      HashesAfterSpec(m, init);
      assert es == init + [e];
      assert ConsideredNames(es) == ConsideredNames(init) + (if Considered(e) then {e.basename} else {});
      forall i | 0 <= i < |es| && Considered(es[i]) && LastWithName(es, i)
        ensures HashesAfter(m, es)[es[i].basename] == es[i].sha1
      {
        if i < |init| {
          assert LastWithName(init, i);
        }
      }
    }
  }

  /** Within one walk, no two audio files share a basename. */
  predicate DistinctNames(es: seq<FileEntry>) {
    forall i, j :: 0 <= i < j < |es| && Considered(es[i]) && Considered(es[j]) ==> es[i].basename != es[j].basename
  }

  /** The paths of the audio files whose hash is absent from, or different in, the stored map m. */
  function ChangedPaths(m: Hashes, es: seq<FileEntry>): seq<string> {
    if es == [] then []
    else ChangedPaths(m, Init(es)) + if Considered(Last(es)) && Changed(m, Last(es)) then [Last(es).path] else []
  }

  lemma {:induction false} HashesAfterOtherName(m: Hashes, es: seq<FileEntry>, b: string)
    requires b !in ConsideredNames(es)
    ensures b in HashesAfter(m, es) <==> b in m
    ensures b in m ==> HashesAfter(m, es)[b] == m[b]
  {
    HashesAfterSpec(m, es);
  }

  /**
   * When no two audio files of the walk share a basename, an audio file is
   * selected exactly when its basename is absent from the stored map or its
   * stored hash differs from the current one, in walk order.
   */
  lemma {:induction false} SelectedAreChanged(m: Hashes, es: seq<FileEntry>)
    requires DistinctNames(es)
    ensures SelectedAfter(m, es) == ChangedPaths(m, es)
  {
    if es != [] {
      var init, e := Init(es), Last(es);
      assert DistinctNames(init);
      SelectedAreChanged(m, init);
      if Considered(e) {
        assert es == init + [e];
        assert e.basename !in ConsideredNames(init);
        HashesAfterOtherName(m, init, e.basename);
      }
    }
  }

  /** Every selected path is that of an audio file of the walk. */
  lemma {:induction false} SelectedAreAudio(m: Hashes, es: seq<FileEntry>)
    ensures forall p :: p in SelectedAfter(m, es) ==> exists e :: e in es && e.path == p && Considered(e)
  {
    if es != [] {
      var init := Init(es);
      SelectedAreAudio(m, init);
      assert es == init + [Last(es)];
    }
  }

  /**
   * Walking the same files again with the hashes the walk stored selects
   * nothing, when no two audio files share a basename.
   */
  lemma RescanSelectsNothing(m: Hashes, es: seq<FileEntry>)
    requires DistinctNames(es)
    ensures SelectedAfter(HashesAfter(m, es), es) == []
  {
    var stored := HashesAfter(m, es);
    HashesAfterSpec(m, es);
    SelectedAreChanged(stored, es);
    NoneChanged(stored, es);
  }

  lemma {:induction false} NoneChanged(stored: Hashes, es: seq<FileEntry>)
    requires forall e :: e in es && Considered(e) ==> e.basename in stored && stored[e.basename] == e.sha1
    ensures ChangedPaths(stored, es) == []
  {
    if es != [] {
      NoneChanged(stored, Init(es));
    }
  }
}
