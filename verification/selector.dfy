/** The candidate videos listed from the source profile, the caption chosen for each, and
    the selection of the ones not yet posted. */
module Selector {
  import opened Wrappers

  /** One entry of the listing: its id, download URL, and the title and description the
      listing carried (either may be absent or null). */
  datatype Video = Video(id: string, url: string, title: Option<string>, description: Option<string>)

  /** Python truthiness of an optional string: present and non-empty. */
  predicate Truthy(s: Option<string>)
  {
    s.Some? && s.value != ""
  }

  /** The first truthy entry of `options`, or `""`: the value of `a or b or ""`. */
  function FirstTruthy(options: seq<Option<string>>): (r: string)
    ensures r == "" || exists i :: 0 <= i < |options| && options[i] == Some(r)
  {
    if |options| == 0 then ""
    else if Truthy(options[0]) then options[0].value
    else FirstTruthy(options[1..])
  }

  /** The caption posted with a video: its description, else its title, else empty. */
  function Caption(v: Video): (c: string)
    ensures c != "" <==> Truthy(v.description) || Truthy(v.title)
    ensures Truthy(v.description) ==> c == v.description.value
    ensures c == "" || Some(c) == v.description || Some(c) == v.title
  {
    if Truthy(v.description) then v.description.value
    else if Truthy(v.title) then v.title.value
    else ""
  }

  /** The caption is exactly `description or title or ""`. */
  lemma CaptionIsFirstTruthy(v: Video)
    ensures Caption(v) == FirstTruthy([v.description, v.title])
  {
    var opts := [v.description, v.title];
    assert opts[1..] == [v.title];
    assert opts[1..][1..] == [];
  }

  /** The ids of a sequence of videos, in order. */
  function Ids(videos: seq<Video>): (ids: seq<string>)
    ensures |ids| == |videos|
    ensures forall i :: 0 <= i < |videos| ==> ids[i] == videos[i].id
  {
    if |videos| == 0 then [] else Ids(videos[..|videos| - 1]) + [videos[|videos| - 1].id]
  }

  /** `new_videos`: the listed videos whose id is not in the ledger, in listing order. */
  function Select(videos: seq<Video>, posted: seq<string>): (r: seq<Video>)
    ensures |r| <= |videos|
    ensures forall i :: 0 <= i < |r| ==> r[i].id !in posted
    decreases |videos|
  {
    if |videos| == 0 then []
    else
      var last := videos[|videos| - 1];
      Select(videos[..|videos| - 1], posted) + (if last.id in posted then [] else [last])
  }

  /** Selection keeps exactly the listed videos whose id is not in the ledger. */
  lemma {:induction false} SelectMembers(videos: seq<Video>, posted: seq<string>, v: Video)
    ensures v in Select(videos, posted) <==> v in videos && v.id !in posted
    decreases |videos|
  {
    if |videos| > 0 {
      var init := videos[..|videos| - 1];
      SelectMembers(init, posted, v);
      assert videos == init + [videos[|videos| - 1]];
    }
  }

  /** Selection distributes over concatenation, so it keeps the relative order of the
      survivors; together with the membership clause of `Select` this pins it down. */
  lemma {:induction false} SelectAppend(a: seq<Video>, b: seq<Video>, posted: seq<string>)
    ensures Select(a + b, posted) == Select(a, posted) + Select(b, posted)
    decreases |b|
  {
    if |b| == 0 {
      assert a + b == a;
    } else {
      var b' := b[..|b| - 1];
      assert (a + b)[..|a + b| - 1] == a + b';
      assert (a + b)[|a + b| - 1] == b[|b| - 1];
      SelectAppend(a, b', posted);
    }
  }

  /** When no listed id is in the ledger, every listed video is selected, in order. */
  lemma {:induction false} SelectAllNew(videos: seq<Video>, posted: seq<string>)
    requires forall i :: 0 <= i < |videos| ==> videos[i].id !in posted
    ensures Select(videos, posted) == videos
    decreases |videos|
  {
    if |videos| > 0 {
      var init := videos[..|videos| - 1];
      SelectAllNew(init, posted);
      assert init + [videos[|videos| - 1]] == videos;
    }
  }

  /** Selecting again against the same ledger changes nothing. */
  lemma {:induction false} SelectIdempotent(videos: seq<Video>, posted: seq<string>)
    ensures Select(Select(videos, posted), posted) == Select(videos, posted)
  {
    var r := Select(videos, posted);
    forall i | 0 <= i < |r|
      ensures r[i].id !in posted
    {
      assert r[i] in r;
    }
    SelectAllNew(r, posted);
  }

  /** `reversed`: the same elements, last first. */
  function Reverse<T>(s: seq<T>): (r: seq<T>)
    ensures |r| == |s|
    ensures forall i :: 0 <= i < |s| ==> r[i] == s[|s| - 1 - i]
  {
    if |s| == 0 then [] else [s[|s| - 1]] + Reverse(s[..|s| - 1])
  }

  /** The ids of a sequence of videos are pairwise distinct. */
  predicate DistinctIds(videos: seq<Video>)
  {
    forall i, j :: 0 <= i < j < |videos| ==> videos[i].id != videos[j].id
  }

  /** Reversal keeps the ids distinct and reverses the id sequence. */
  lemma ReverseIds(videos: seq<Video>)
    ensures Ids(Reverse(videos)) == Reverse(Ids(videos))
    ensures DistinctIds(videos) ==> DistinctIds(Reverse(videos))
  {
    var r := Reverse(videos);
    if DistinctIds(videos) {
      forall i, j | 0 <= i < j < |r|
        ensures r[i].id != r[j].id
      {
        assert r[i] == videos[|videos| - 1 - i] && r[j] == videos[|videos| - 1 - j];
      }
    }
  }
}
