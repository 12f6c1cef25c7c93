/** The file-name side of the relay: the local file for a video is named after its id,
    and the upload step recovers the ledger key from that file name with `PurePath.stem`.
    The dedupe check depends on this string round trip. */
module Paths {

  /** The extension every downloaded video is written with. */
  const VideoExtension: string := ".mp4"

  /** The local file a video with id `id` is downloaded to: `{id}.mp4`. */
  function FileName(id: string): (p: string)
    ensures |p| == |id| + |VideoExtension|
    ensures p[..|id|] == id && p[|id|..] == VideoExtension
  {
    id + VideoExtension
  }

  /** `str.rfind` for one character: the index of the last occurrence of `c` in `s`,
      or -1 when `c` does not occur. */
  function LastIndexOf(s: string, c: char): (r: int)
    ensures -1 <= r < |s|
    ensures r >= 0 ==> s[r] == c
    ensures forall k :: r < k < |s| ==> s[k] != c
    decreases |s|
  {
    if |s| == 0 then -1
    else if s[|s| - 1] == c then |s| - 1
    else LastIndexOf(s[..|s| - 1], c)
  }

  /** `PurePath.name`: the final component of a POSIX path, i.e. what follows the last `/`.
      This agrees with Python's path normalisation for every path that does not end in
      `/` or `/.`, which holds of every `{id}.mp4`. */
  function BaseName(path: string): (n: string)
    ensures '/' !in n
    ensures |n| <= |path| && n == path[|path| - |n|..]
    ensures '/' !in path ==> n == path
    ensures |n| < |path| ==> path[|path| - |n| - 1] == '/'
  {
    path[LastIndexOf(path, '/') + 1..]
  }

  /** `PurePath.stem` of a final component: the name up to its last `.`, provided that dot
      is neither the first nor the last character; otherwise the whole name. */
  function NameStem(name: string): (r: string)
    ensures |r| <= |name| && r == name[..|r|]
    ensures r == name ||
              (0 < |r| < |name| - 1 && name[|r|] == '.' && '.' !in name[|r| + 1..])
    ensures r == name ==>
              forall k :: 0 < k < |name| - 1 && name[k] == '.' ==> '.' in name[k + 1..]
  {
    var i := LastIndexOf(name, '.');
    if 0 < i < |name| - 1 then name[..i] else name
  }

  /** `Path(path).stem`: the ledger key the upload step derives from a file path. It is the
      final component cut at its last `.` when that dot is strictly inside it, and the whole
      final component otherwise. */
  function Stem(path: string): (r: string)
    ensures '/' !in r
    ensures |r| <= |BaseName(path)| && r == BaseName(path)[..|r|]
    ensures r == BaseName(path) ||
              (0 < |r| < |BaseName(path)| - 1 && BaseName(path)[|r|] == '.' &&
               '.' !in BaseName(path)[|r| + 1..])
    ensures r == BaseName(path) ==>
              forall k :: 0 < k < |BaseName(path)| - 1 && BaseName(path)[k] == '.' ==>
                '.' in BaseName(path)[k + 1..]
  {
    NameStem(BaseName(path))
  }

  /** An id the file-name round trip preserves: non-empty and free of path separators. */
  predicate PlainId(id: string)
  {
    id != [] && '/' !in id
  }

  /** The key checked and recorded at upload is the candidate's own id. */
  lemma StemOfFileName(id: string)
    requires PlainId(id)
    ensures Stem(FileName(id)) == id
  {
    var p := FileName(id);
    assert p[|id|..] == VideoExtension;
    assert p[|id|] == '.' && p[|id| + 1] == 'm' && p[|id| + 2] == 'p' && p[|id| + 3] == '4';
    assert forall k :: 0 <= k < |id| ==> p[k] == id[k];
    assert BaseName(p) == p;
    var i := LastIndexOf(p, '.');
    assert i == |id|;
  }

  /** Without the non-empty condition the round trip fails: the empty id is downloaded to
      `.mp4`, whose only dot is its first character, so the key becomes `.mp4`. */
  lemma EmptyIdStem()
    ensures Stem(FileName("")) == ".mp4"
  {
    var p := FileName("");
    assert p == VideoExtension;
    assert BaseName(p) == p;
    var i := LastIndexOf(p, '.');
    assert p[0] == '.' && p[1] != '.' && p[2] != '.' && p[3] != '.';
    assert i == 0;
  }

  /** With a `/` in the id the file lands in a sub-directory and the key loses everything
      up to the last `/`, so it is not the id. */
  lemma StemDropsDirectories(dir: string, id: string)
    requires PlainId(id)
    ensures Stem(FileName(dir + "/" + id)) == id
  {
    var p := FileName(dir + "/" + id);
    assert p == dir + "/" + FileName(id);
    assert p[|dir|] == '/';
    assert forall k :: |dir| < k < |p| ==> p[k] == FileName(id)[k - |dir| - 1];
    var j := LastIndexOf(p, '/');
    assert j == |dir|;
    assert BaseName(p) == FileName(id);
    StemOfFileName(id);
  }
}
