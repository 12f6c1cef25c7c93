/** The per-video work of the relay loop (download, upload with its dedupe check, ledger
    commit, cleanup of the local file) and the loop itself as a fold over the videos in
    the order they are processed. Downloads and uploads are supplied as oracles. */
module Relay {
  import opened Paths
  import opened Selector

  /** What `yt-dlp` did for one download: succeeded, or failed (raising), possibly
      leaving the output file behind. */
  datatype Fetch = Fetched | FetchFailed(leftFile: bool)

  /** The outside world: the download result for each video, and whether the Graph API
      upload of a file keyed `key` with caption `caption` gets through `raise_for_status`
      and `r.json()`. */
  datatype Env = Env(download: Video -> Fetch, upload: (string, string) -> bool)

  /** How one video's processing ended. */
  datatype Outcome =
    | DownloadFailed   // the download raised; the upload step never ran
    | AlreadyPosted    // the upload step found its key in the ledger and returned
    | UploadFailed     // the Graph API call raised; nothing was recorded
    | Posted           // the upload succeeded and its key was appended and saved

  /** One processed video: its id, the caption chosen for it, and the outcome. */
  datatype Attempt = Attempt(id: string, caption: string, outcome: Outcome)

  /** The run's state between videos: the in-memory `posted_ids` list, the video files on
      disk (the cache file is tracked through `saves`, and downloader temporaries are not
      tracked), every ledger written by `save_cache` in order, and one attempt per processed
      video. */
  datatype State = State(ledger: seq<string>, files: set<string>, saves: seq<seq<string>>, report: seq<Attempt>)

  /** The outcomes for which a request was sent to the Graph API. */
  predicate CallsGraphApi(o: Outcome)
  {
    o.UploadFailed? || o.Posted?
  }

  /** No id occurs twice. */
  predicate NoDuplicates(ids: seq<string>)
  {
    forall i, j :: 0 <= i < j < |ids| ==> ids[i] != ids[j]
  }

  /** Every `save_cache` wrote the ledger as it was at that moment, so once anything has
      been saved the file agrees with the in-memory ledger. */
  predicate Durable(s: State)
  {
    s.saves != [] ==> s.saves[|s.saves| - 1] == s.ledger
  }

  /** The key the upload step checks and records for a video: the stem of its file. */
  function UploadKey(v: Video): string
  {
    Stem(FileName(v.id))
  }

  /** The result of `upload_to_facebook`: its outcome, and the ledger and saves after it. */
  datatype Upload = Upload(outcome: Outcome, ledger: seq<string>, saves: seq<seq<string>>)

  /** `upload_to_facebook`: derive the key from the file name; if it is already in the
      ledger do nothing; otherwise post, and only when the post succeeds append the key
      and save the whole ledger. */
  function UploadToFacebook(ledger: seq<string>, saves: seq<seq<string>>, filePath: string,
                            caption: string, upload: (string, string) -> bool): (u: Upload)
    ensures u.outcome != DownloadFailed
    ensures u.outcome == AlreadyPosted <==> Stem(filePath) in ledger
    ensures u.outcome == Posted <==> Stem(filePath) !in ledger && upload(Stem(filePath), caption)
    ensures u.outcome == Posted ==> u.ledger == ledger + [Stem(filePath)] && u.saves == saves + [u.ledger]
    ensures u.outcome != Posted ==> u.ledger == ledger && u.saves == saves
  {
    var key := Stem(filePath);
    if key in ledger then Upload(AlreadyPosted, ledger, saves)
    else if !upload(key, caption) then Upload(UploadFailed, ledger, saves)
    else
      var ledger' := ledger + [key];
      Upload(Posted, ledger', saves + [ledger'])
  }

  /** How one iteration ends, stated from its inputs: a failed download stops it; a
      key already in the ledger makes the upload step return; otherwise the Graph API
      decides. */
  function ItemOutcome(ledger: seq<string>, v: Video, env: Env): Outcome
  {
    if env.download(v).FetchFailed? then DownloadFailed
    else if UploadKey(v) in ledger then AlreadyPosted
    else if env.upload(UploadKey(v), Caption(v)) then Posted
    else UploadFailed
  }

  /** One iteration of the loop in `main`: download to `{id}.mp4`, run the upload step if
      the download succeeded, swallow any exception, and in every case delete the file if
      it exists. */
  function ProcessItem(s: State, v: Video, env: Env): (t: State)
    ensures t.files == s.files - {FileName(v.id)}
    ensures t.report == s.report + [Attempt(v.id, Caption(v), ItemOutcome(s.ledger, v, env))]
    ensures ItemOutcome(s.ledger, v, env) == Posted ==>
              t.ledger == s.ledger + [UploadKey(v)] && t.saves == s.saves + [t.ledger]
    ensures ItemOutcome(s.ledger, v, env) != Posted ==> t.ledger == s.ledger && t.saves == s.saves
  {
    var out := FileName(v.id);
    var caption := Caption(v);
    match env.download(v)
    case FetchFailed(leftFile) =>
      var onDisk := if leftFile then s.files + {out} else s.files;
      State(s.ledger, onDisk - {out}, s.saves, s.report + [Attempt(v.id, caption, DownloadFailed)])
    case Fetched =>
      var u := UploadToFacebook(s.ledger, s.saves, out, caption, env.upload);
      var onDisk := s.files + {out};
      State(u.ledger, onDisk - {out}, u.saves, s.report + [Attempt(v.id, caption, u.outcome)])
  }

  /** The loop over `items`, in order, from state `s`. */
  function RelayAll(s: State, items: seq<Video>, env: Env): (t: State)
    ensures |t.report| == |s.report| + |items|
    decreases |items|
  {
    if |items| == 0 then s
    else ProcessItem(RelayAll(s, items[..|items| - 1], env), items[|items| - 1], env)
  }

  /** Unfolds the loop by its last item. */
  lemma RelayAllLast(s: State, items: seq<Video>, env: Env)
    requires |items| > 0
    ensures RelayAll(s, items, env) == ProcessItem(RelayAll(s, items[..|items| - 1], env), items[|items| - 1], env)
  {
  }

  /** Append-only: the ledger before the loop is a prefix of the ledger after it. */
  lemma {:induction false} RelayAllAppendOnly(s: State, items: seq<Video>, env: Env)
    ensures |s.ledger| <= |RelayAll(s, items, env).ledger|
    ensures RelayAll(s, items, env).ledger[..|s.ledger|] == s.ledger
    decreases |items|
  {
    if |items| > 0 {
      var init := items[..|items| - 1];
      var before := RelayAll(s, init, env);
      RelayAllAppendOnly(s, init, env);
      RelayAllLast(s, items, env);
      var t := ProcessItem(before, items[|items| - 1], env);
      assert t.ledger[..|s.ledger|] == before.ledger[..|s.ledger|];
    }
  }

  /** The attempts of the loop over a prefix of the items are a prefix of its attempts. */
  lemma {:induction false} RelayAllPrefix(s: State, items: seq<Video>, env: Env, j: nat)
    requires s.report == [] && j <= |items|
    ensures RelayAll(s, items, env).report[..j] == RelayAll(s, items[..j], env).report
    decreases |items|
  {
    if j < |items| {
      var init := items[..|items| - 1];
      RelayAllPrefix(s, init, env, j);
      assert init[..j] == items[..j];
      RelayAllLast(s, items, env);
      var before := RelayAll(s, init, env);
      var t := ProcessItem(before, items[|items| - 1], env);
      assert t.report[..j] == before.report[..j];
    } else {
      assert items[..j] == items;
    }
  }

  /** The attempt for the `i`-th item is what one iteration reports when it runs in the
      state the first `i` items left behind. */
  lemma AttemptAt(s: State, items: seq<Video>, env: Env, i: nat)
    requires s.report == [] && i < |items|
    ensures RelayAll(s, items, env).report[i] ==
              Attempt(items[i].id, Caption(items[i]), ItemOutcome(RelayAll(s, items[..i], env).ledger, items[i], env))
  {
    RelayAllPrefix(s, items, env, i + 1);
    var prefix := items[..i + 1];
    assert prefix[..i] == items[..i];
    assert prefix[i] == items[i];
    RelayAllLast(s, prefix, env);
    var before := RelayAll(s, items[..i], env);
    assert RelayAll(s, prefix, env).report[i] == RelayAll(s, items, env).report[..i + 1][i];
  }

  /** Isolation: whatever happens to one video, every later one is still processed; the
      loop makes exactly one attempt per video, in order. */
  lemma RelayAllAttempts(s: State, items: seq<Video>, env: Env)
    requires s.report == []
    ensures forall i :: 0 <= i < |items| ==> RelayAll(s, items, env).report[i].id == items[i].id
  {
    forall i | 0 <= i < |items|
      ensures RelayAll(s, items, env).report[i].id == items[i].id
    {
      AttemptAt(s, items, env, i);
    }
  }

  /** An id is committed only when both its download and its upload succeeded. */
  lemma PostedOnlyOnSuccess(s: State, items: seq<Video>, env: Env, i: nat)
    requires s.report == [] && i < |items|
    requires RelayAll(s, items, env).report[i].outcome == Posted
    ensures env.download(items[i]).Fetched?
    ensures env.upload(UploadKey(items[i]), Caption(items[i]))
    ensures UploadKey(items[i]) !in s.ledger
  {
    AttemptAt(s, items, env, i);
    var before := RelayAll(s, items[..i], env);
    RelayAllAppendOnly(s, items[..i], env);
    assert forall x :: x in s.ledger ==> x in before.ledger;
  }

  /** Idempotence: a video whose key was in the ledger when the loop started never
      reaches the Graph API. */
  lemma NoUploadForPostedKey(s: State, items: seq<Video>, env: Env, i: nat)
    requires s.report == [] && i < |items|
    requires UploadKey(items[i]) in s.ledger
    ensures !CallsGraphApi(RelayAll(s, items, env).report[i].outcome)
  {
    AttemptAt(s, items, env, i);
    var before := RelayAll(s, items[..i], env);
    RelayAllAppendOnly(s, items[..i], env);
    assert UploadKey(items[i]) in before.ledger;
  }

  /** The local files of a sequence of videos. */
  function FilesOf(items: seq<Video>): set<string>
  {
    set v | v in items :: FileName(v.id)
  }

  /** The files of a non-empty sequence are those of all but its last video, plus that one's. */
  lemma FilesOfLast(items: seq<Video>)
    requires |items| > 0
    ensures FilesOf(items) == FilesOf(items[..|items| - 1]) + {FileName(items[|items| - 1].id)}
  {
    assert items == items[..|items| - 1] + [items[|items| - 1]];
  }

  /** Cleanup: after the loop, no processed video's file is on disk, and no other file
      was touched. */
  lemma {:induction false} RelayAllFiles(s: State, items: seq<Video>, env: Env)
    ensures RelayAll(s, items, env).files == s.files - FilesOf(items)
    decreases |items|
  {
    if |items| > 0 {
      var init := items[..|items| - 1];
      RelayAllFiles(s, init, env);
      RelayAllLast(s, items, env);
      FilesOfLast(items);
    }
  }

  /** The keys of the posted attempts of a report, in order. */
  function CommittedKeys(report: seq<Attempt>): (keys: seq<string>)
    ensures |keys| <= |report|
  {
    if |report| == 0 then []
    else
      var a := report[|report| - 1];
      CommittedKeys(report[..|report| - 1]) + (if a.outcome == Posted then [Stem(FileName(a.id))] else [])
  }

  /** The ledger after the loop is the ledger before it followed by the key of every
      posted video, in processing order: append-only, and a commit for each post. */
  lemma {:induction false} RelayAllCommits(s: State, items: seq<Video>, env: Env)
    requires s.report == []
    ensures RelayAll(s, items, env).ledger == s.ledger + CommittedKeys(RelayAll(s, items, env).report)
    decreases |items|
  {
    if |items| > 0 {
      var init := items[..|items| - 1];
      var before := RelayAll(s, init, env);
      RelayAllCommits(s, init, env);
      RelayAllLast(s, items, env);
      var t := ProcessItem(before, items[|items| - 1], env);
      assert t.report[..|t.report| - 1] == before.report;
    }
  }

  /** Every save wrote the ledger of its moment. */
  lemma {:induction false} RelayAllDurable(s: State, items: seq<Video>, env: Env)
    requires Durable(s)
    ensures Durable(RelayAll(s, items, env))
    decreases |items|
  {
    if |items| > 0 {
      RelayAllDurable(s, items[..|items| - 1], env);
      RelayAllLast(s, items, env);
    }
  }

  /** There is one save per post. */
  lemma {:induction false} RelayAllSaves(s: State, items: seq<Video>, env: Env)
    requires s.report == []
    ensures |RelayAll(s, items, env).saves| == |s.saves| + |CommittedKeys(RelayAll(s, items, env).report)|
    decreases |items|
  {
    if |items| > 0 {
      var init := items[..|items| - 1];
      var before := RelayAll(s, init, env);
      RelayAllSaves(s, init, env);
      RelayAllLast(s, items, env);
      var t := ProcessItem(before, items[|items| - 1], env);
      assert t.report[..|t.report| - 1] == before.report;
    }
  }

  /** Appending a key that is absent keeps a ledger duplicate-free. */
  lemma AppendAbsent(ids: seq<string>, key: string)
    requires NoDuplicates(ids) && key !in ids
    ensures NoDuplicates(ids + [key])
  {
    var ids' := ids + [key];
    forall i, j | 0 <= i < j < |ids'|
      ensures ids'[i] != ids'[j]
    {
      assert ids'[i] == ids[i];
      if j < |ids| {
        assert ids'[j] == ids[j];
      }
    }
  }

  /** A run never introduces a duplicate into a duplicate-free ledger: a key is appended
      only when the upload step has just checked that it is absent. */
  lemma {:induction false} RelayAllNoDuplicates(s: State, items: seq<Video>, env: Env)
    requires NoDuplicates(s.ledger)
    ensures NoDuplicates(RelayAll(s, items, env).ledger)
    decreases |items|
  {
    if |items| > 0 {
      var init := items[..|items| - 1];
      var v := items[|items| - 1];
      var before := RelayAll(s, init, env);
      RelayAllNoDuplicates(s, init, env);
      RelayAllLast(s, items, env);
      if ItemOutcome(before.ledger, v, env) == Posted {
        AppendAbsent(before.ledger, UploadKey(v));
      }
    }
  }

  /** Every video has a plain id not in `ledger`, downloads, and is accepted by the
      Graph API. */
  predicate AllAccepted(ledger: seq<string>, items: seq<Video>, env: Env)
  {
    forall i :: 0 <= i < |items| ==>
      PlainId(items[i].id) && items[i].id !in ledger &&
      env.download(items[i]).Fetched? && env.upload(items[i].id, Caption(items[i]))
  }

  /** Concatenation is associative, for appending one element. */
  lemma AppendOne<T>(a: seq<T>, b: seq<T>, x: T)
    ensures a + (b + [x]) == (a + b) + [x]
  {
  }

  /** One iteration on an accepted video with a new plain id commits exactly that id. */
  lemma AcceptedStep(before: State, v: Video, env: Env)
    requires PlainId(v.id) && v.id !in before.ledger
    requires env.download(v).Fetched? && env.upload(v.id, Caption(v))
    ensures ProcessItem(before, v, env).ledger == before.ledger + [v.id]
  {
    StemOfFileName(v.id);
  }

  /** When every download and upload succeeds, every id is plain and new, and no id repeats,
      every video is posted and the ledger gains exactly their ids, in processing order. */
  lemma {:induction false} RelayAllAllSucceed(s: State, items: seq<Video>, env: Env)
    requires AllAccepted(s.ledger, items, env) && DistinctIds(items)
    ensures RelayAll(s, items, env).ledger == s.ledger + Ids(items)
    decreases |items|
  {
    if |items| > 0 {
      var init := items[..|items| - 1];
      var v := items[|items| - 1];
      assert forall i :: 0 <= i < |init| ==> init[i] == items[i];
      RelayAllAllSucceed(s, init, env);
      var before := RelayAll(s, init, env);
      assert v.id !in Ids(init) by {
        forall k | 0 <= k < |init|
          ensures Ids(init)[k] != v.id
        {
          assert init[k] == items[k];
        }
      }
      assert v.id !in before.ledger;
      AcceptedStep(before, v, env);
      RelayAllLast(s, items, env);
      assert Ids(items) == Ids(init) + [v.id];
      AppendOne(s.ledger, Ids(init), v.id);
    }
  }

  /** The ids of the posted attempts of a report, in order. */
  function PostedIds(report: seq<Attempt>): seq<string>
  {
    if |report| == 0 then []
    else
      var a := report[|report| - 1];
      PostedIds(report[..|report| - 1]) + (if a.outcome == Posted then [a.id] else [])
  }

  /** With plain ids the key committed for an attempt is its own id. */
  lemma {:induction false} CommittedKeysOfPlainIds(report: seq<Attempt>)
    requires forall k :: 0 <= k < |report| ==> PlainId(report[k].id)
    ensures CommittedKeys(report) == PostedIds(report)
  {
    if |report| > 0 {
      CommittedKeysOfPlainIds(report[..|report| - 1]);
      StemOfFileName(report[|report| - 1].id);
    }
  }
}
