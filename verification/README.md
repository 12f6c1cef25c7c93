# Instagram → Facebook relay: a Dafny model of the job loop

This project models the relay job of `main.py`. The job lists the latest videos of an
Instagram profile with `yt-dlp`. It keeps those whose id is not yet in the
`posted_ids` list of `posted_cache.json` (the *ledger*). It processes them oldest first:
download to `{id}.mp4`, upload to a Facebook Page through the Graph API, and, only on a
successful upload, append the id to the ledger and save the cache. Every exception of one
video is caught, and the local file is deleted whatever happened.

Everything outside the job's own logic is replaced by abstract outcomes:

- the cache file's state at start-up is a `Cache.Store`: missing, unreadable, not JSON, or
  a decoded JSON value;
- the listing is a `Job.Listing`: a newest-first sequence of `Selector.Video`, or a failure;
- downloads and uploads are oracles in `Relay.Env`. `download` says, per video, whether
  `yt-dlp` succeeded or failed, and whether a failure left the output file behind.
  `upload` says, per key and caption, whether the Graph API call got through
  `raise_for_status` and `r.json()`;
- the video files on disk are a `set<string>`. It leaves out the cache file, whose
  writes are recorded separately: every `save_cache` call is recorded as the ledger it
  wrote (`State.saves`). It also leaves out any temporary file the downloader keeps next
  to `{id}.mp4`.

The modules follow the job's structure:

- `Paths`: the `{id}.mp4` file name, and `Path(...).stem`, which recovers the ledger key
  from it. `stem` is modelled as the last path component up to its last `.`, provided that
  dot is neither its first nor its last character.
- `Cache`: `load_cache` and the forcing of the `posted_ids` key in `main`.
- `Selector`: the listed video, the caption choice, the selection of unseen videos, and
  the reversal.
- `Relay`: `upload_to_facebook`, one loop iteration with its `try`/`except`/`finally`,
  and the loop as a fold over the videos in processing order.
- `Job`: `main` as a function, the same loop as a method, and the run-level properties.

Behaviour of `main.py` that the model keeps:

- `load_cache` catches only `json.JSONDecodeError`. A cache file that is not valid UTF-8
  ends the run. A missing file or a file that is not JSON gives an empty ledger.
- Lines 106-107 raise `TypeError` on a cache that is a number, a boolean or null (the `in`
  test fails), and on an array or string that lacks `"posted_ids"` (the item assignment
  fails). An array or string that holds `"posted_ids"` passes both lines. The filter at
  line 110 then fails on it only if some video was listed; with an empty listing the
  run ends normally with nothing to post.

## Model

| member | source | states |
|---|---|---|
| Paths.FileName | main.py:118 | the local file of a video is its id followed by `.mp4`, and nothing else |
| Paths.LastIndexOf | main.py:82 | the `rfind` used by `stem`: -1 when the character is absent, otherwise an index holding it with no later occurrence |
| Paths.BaseName | main.py:82 | the last path component is the suffix after the last `/`: it contains no `/`, and it is preceded by a `/` unless it is the whole path |
| Paths.NameStem | main.py:82 | the stem is a non-empty proper prefix of the name followed by its last `.` when that dot is strictly inside the name, and the whole name only when no such dot exists |
| Paths.Stem | main.py:82 | the key is the final path component cut at its last `.` when that dot is strictly inside it, and the whole component otherwise; it never contains `/` |
| Paths.StemOfFileName | main.py:82 | for every non-empty id without `/`, the stem of `{id}.mp4` is the id, so the key checked and recorded at upload is the candidate's own id |
| Paths.EmptyIdStem | main.py:82 | for the empty id the key becomes `.mp4`, so the non-empty condition of the round trip is needed |
| Paths.StemDropsDirectories | main.py:82 | for an id containing `/`, the key is only the part after the last `/` |
| Cache.LoadCache | main.py:27-33 | a missing file and a JSON decode error both give `{"posted_ids": []}`; decoded JSON is returned as is; only a read failure escapes |
| Cache.KeyCheckPasses | main.py:105-107 | the loading and the key forcing complete unless the file is unreadable, holds a scalar, or holds an array or string without `"posted_ids"` |
| Cache.LoadLedger | main.py:105-107 | there is a ledger exactly when the cache is an object (a missing or malformed file counts as `{"posted_ids": []}`); it is the stored `posted_ids`, or empty when the key is absent; having one implies the key forcing passed |
| Cache.MissingOrMalformedIsEmpty | main.py:28-33 | a missing or malformed cache gives the same empty ledger as `{"posted_ids": []}` and as `{}` |
| Cache.LoadedIdsWereStored | main.py:105-107 | every id in the loaded ledger was in the stored `posted_ids` list |
| Selector.Caption | main.py:117 | the caption is non-empty exactly when the description or the title is; a non-empty description wins; the caption is always one of them or empty |
| Selector.CaptionIsFirstTruthy | main.py:117 | the caption equals the first truthy value of `[description, title]`, or `""` |
| Selector.Select | main.py:110 | no selected video has an id in the ledger, and the selection is no longer than the listing |
| Selector.SelectMembers | main.py:110 | a video is selected if and only if it was listed and its id is not in the ledger |
| Selector.SelectAppend | main.py:110 | selection distributes over concatenation, so survivors keep their relative order |
| Selector.SelectAllNew | main.py:110 | when no listed id is in the ledger, the selection is the whole listing in order |
| Selector.SelectIdempotent | main.py:110 | selecting twice against the same ledger is the same as selecting once |
| Selector.Reverse | main.py:115 | `reversed` keeps the length and puts element `i` at position `n - 1 - i` |
| Selector.ReverseIds | main.py:115 | reversing videos reverses their ids and keeps distinct ids distinct |
| Relay.UploadToFacebook | main.py:81-100 | a key already in the ledger is an `AlreadyPosted` no-op; otherwise the key is appended and one save records the new ledger exactly when the upload succeeds; a failed upload changes nothing |
| Relay.ProcessItem | main.py:115-126 | one iteration removes `{id}.mp4` from the video files and touches no other of them; it adds one attempt with the id, the caption and the outcome; the ledger and saves grow only on `Posted` |
| Relay.RelayAll | main.py:115-126 | the loop adds exactly one attempt per video |
| Relay.RelayAllAppendOnly | main.py:99 | the ledger before the loop is a prefix of the ledger after it |
| Relay.AttemptAt | main.py:115-126 | the attempt for the `i`-th video is the outcome of one iteration run on the ledger that the first `i` videos left |
| Relay.RelayAllAttempts | main.py:119-123 | every video is attempted, in order, whatever happened to the earlier ones |
| Relay.PostedOnlyOnSuccess | main.py:119-121 | an attempt is `Posted` only if its download and its upload both succeeded and its key was not in the starting ledger |
| Relay.NoUploadForPostedKey | main.py:83-85 | a video whose key was already in the ledger never reaches the Graph API |
| Relay.RelayAllFiles | main.py:124-126 | after the loop no processed video's `{id}.mp4` is on disk, and every other video file is as before |
| Relay.RelayAllCommits | main.py:96-100 | the ledger after the loop is the ledger before it, followed by the keys of the `Posted` attempts in processing order |
| Relay.RelayAllDurable | main.py:99-100 | once anything has been saved, the last save equals the in-memory ledger |
| Relay.RelayAllSaves | main.py:99-100 | there is exactly one save per committed key |
| Relay.AppendAbsent | main.py:83-99 | appending a key that is absent keeps a ledger duplicate-free |
| Relay.RelayAllNoDuplicates | main.py:83-99 | the loop never introduces a duplicate into a duplicate-free ledger |
| Relay.AcceptedStep | main.py:115-121 | a downloaded, accepted video with a new plain id commits exactly its id |
| Relay.RelayAllAllSucceed | main.py:115-121 | when every transfer succeeds and all ids are plain, new and distinct, the ledger gains exactly the ids in processing order |
| Relay.CommittedKeysOfPlainIds | main.py:82 | with plain ids, the committed keys are the ids of the posted attempts |
| Job.Run | main.py:103-128 | the run aborts at the cache exactly when lines 105-107 raise, at the listing exactly when those pass and the listing fails, and at line 110 exactly for an array or string cache with a non-empty listing; it does nothing exactly when no listed video is new, or the listing is empty for such a cache |
| Job.RunJob | main.py:103-128 | the loop written as `main` writes it computes the same result as the fold |
| Job.MalformedCacheRecovery | main.py:28-33 | with a missing or malformed cache the run behaves exactly as with `{"posted_ids": []}`, and is not aborted once the listing succeeds |
| Job.ReversedAttempts | main.py:115 | looping over a reversed selection attempts its videos last first, one attempt each |
| Job.RunOrder | main.py:115 | a finished run attempts every selected video exactly once, in reverse of the selection, so the newest-first feed is handled oldest first |
| Job.RunSkipsPosted | main.py:110 | no video whose id is in the loaded ledger is attempted |
| Job.RunLedger | main.py:83-100 | the final ledger is the loaded one plus the keys of the posted videos; the last save holds it; there is one save per commit; a duplicate-free ledger stays duplicate-free |
| Job.RunCommitsOwnIds | main.py:82 | with plain ids, the final ledger is the loaded one plus the ids of the posted videos, in posting order |
| Job.RunCleanup | main.py:124-126 | after a run no selected video's `{id}.mp4` is on disk, and every other video file is untouched |
| Job.ReversedAllSucceed | main.py:115-121 | the loop over a reversed all-accepted listing appends its ids oldest first |
| Job.RunPostsOldestFirst | main.py:110-121 | with all transfers succeeding and all ids plain, new and distinct, a listing `[c5, c4, c3]` extends the ledger by `c3, c4, c5` |

## Left out

- Listing the profile with `yt-dlp -j --flat-playlist` and parsing its JSON lines (main.py:39-64). This is an external tool plus the JSON decoder. Its result is given as a `Listing`, and its failure aborts the run. The `MAX_RESULTS` limit belongs to that step.
- The `yt-dlp` download (main.py:67-78). It is reduced to the `download` oracle. That oracle is a function of the video, so two downloads of the same video in one run get the same answer.
- The HTTP POST, `raise_for_status` and `r.json()` (main.py:87-97). They are reduced to the `upload` oracle over the key and caption. That oracle is a function of the key and the caption, so two uploads with the same key and caption in one run get the same answer. The `published`/`privacy` parameters and the access token are not modelled.
- The file write and JSON serialisation in `save_cache` (main.py:35-36). A save is assumed to succeed. If it raised, the id would already be in the in-memory ledger but not on disk; the model does not cover that case.
- `Path(out_file).unlink()` is assumed to succeed. If it raised inside `finally`, the exception would end the run.
- Environment configuration and the start-up check (main.py:17-24), logging and timestamps (main.py:46, 74, 98, 104, 112, 123, 128).
- The `cache.get("posted_ids", [])` and `setdefault` fallbacks in `upload_to_facebook` (main.py:83, main.py:99). `main` forces the key at lines 106-107 before any upload, so these fallbacks are never reached and the ledger is a plain `seq<string>`.
- A `posted_ids` member that is not a list of strings, and cache members other than `posted_ids`. The JSON value is modelled only as an object with an optional id list, an array or string that does or does not hold `"posted_ids"`, or a scalar.
- `Paths.BaseName`: models `PurePath.name` only for paths that do not end in `/` or `/.`. That holds for every `{id}.mp4`, the only paths the job builds. Windows separators are not modelled.
- Crash safety across publish and commit, download retries, atomic saves and detection of an error object in a 200 response: `main.py` has none of them.
- Temporary files a failed `yt-dlp` download may leave, such as `{id}.mp4.part`, are not modelled. The `finally` block (main.py:124-126) removes only `{id}.mp4`, so `Relay.RelayAllFiles` and `Job.RunCleanup` cover `{id}.mp4` and say nothing about those files.
- Relay.AttemptAt, Relay.RelayAllAttempts, Relay.PostedOnlyOnSuccess, Relay.NoUploadForPostedKey, Relay.RelayAllCommits, Relay.RelayAllSaves: these are stated for a loop that starts with an empty attempt record. That is how `main` starts it (`Job.Initial`). They index the record by the position of the video in the loop.
