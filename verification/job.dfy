/** One run of the relay job, `main`: load the ledger, list the profile's videos, select
    the ones not yet posted, and process them oldest first. */
module Job {
  import opened Wrappers
  import opened Paths
  import opened Cache
  import opened Selector
  import opened Relay

  /** What the listing step (`fetch_instagram_videos`) produced: the videos, newest first,
      or a failure of `yt-dlp` that raises out of `main`. */
  datatype Listing = ListingFailed | Listed(videos: seq<Video>)

  /** Why a run stopped before processing anything: lines 105-107 raised, the listing
      raised, or the filter at line 110 could not index the cache with `"posted_ids"`. */
  datatype Abort = CacheUnusable | ListingUnavailable | LedgerUnindexable

  /** How a run ended. A finished run carries the state after the last video. */
  datatype RunResult = Aborted(cause: Abort) | NothingNew | Finished(state: State)

  /** The state the loop starts from: the loaded ledger, the files already on disk, nothing
      saved and nothing processed yet. */
  function Initial(ledger: seq<string>, files: set<string>): State
  {
    State(ledger, files, [], [])
  }

  /** `main`. The cache is loaded and its key forced before the listing is fetched; an
      exception from either ends the run before any video is touched. A cache that is an
      array or string holding `"posted_ids"` survives until line 110 indexes it, which
      happens only when some video was listed. */
  function Run(store: Store, listing: Listing, files: set<string>, env: Env): (r: RunResult)
    ensures r == Aborted(CacheUnusable) <==> !KeyCheckPasses(store)
    ensures r == Aborted(ListingUnavailable) <==> KeyCheckPasses(store) && listing.ListingFailed?
    ensures r == Aborted(LedgerUnindexable) <==>
              store == Holds(ArrayOrString(true)) && listing.Listed? && listing.videos != []
    ensures r.NothingNew? <==>
              listing.Listed? &&
              if LoadLedger(store).Some? then Select(listing.videos, LoadLedger(store).value) == []
              else store == Holds(ArrayOrString(true)) && listing.videos == []
    ensures r.Finished? ==> LoadLedger(store).Some?
  {
    if !KeyCheckPasses(store) then Aborted(CacheUnusable)
    else if listing.ListingFailed? then Aborted(ListingUnavailable)
    else
      match LoadLedger(store)
      case None => if |listing.videos| == 0 then NothingNew else Aborted(LedgerUnindexable)
      case Some(ledger) =>
        var unseen := Select(listing.videos, ledger);
        if |unseen| == 0 then NothingNew
        else Finished(RelayAll(Initial(ledger, files), Reverse(unseen), env))
  }

  /** `main` as the loop it is written as: one iteration per selected video, walking the
      selection from its end. */
  method RunJob(store: Store, listing: Listing, files: set<string>, env: Env) returns (r: RunResult)
    ensures r == Run(store, listing, files, env)
  {
    if !KeyCheckPasses(store) {
      return Aborted(CacheUnusable);
    }
    if listing.ListingFailed? {
      return Aborted(ListingUnavailable);
    }
    var loaded := LoadLedger(store);
    if loaded.None? {
      if |listing.videos| == 0 {
        return NothingNew;
      }
      return Aborted(LedgerUnindexable);
    }
    var ledger := loaded.value;
    var unseen := Select(listing.videos, ledger);
    if |unseen| == 0 {
      return NothingNew;
    }
    var items := Reverse(unseen);
    var s := Initial(ledger, files);
    var i := 0;
    while i < |items|
      invariant 0 <= i <= |items|
      invariant s == RelayAll(Initial(ledger, files), items[..i], env)
    {
      assert items[..i + 1][..i] == items[..i];
      assert items[..i + 1][i] == items[i];
      RelayAllLast(Initial(ledger, files), items[..i + 1], env);
      s := ProcessItem(s, items[i], env);
      i := i + 1;
    }
    assert items[..i] == items;
    return Finished(s);
  }

  /** A missing or malformed cache file does not stop the run: it behaves exactly as a
      file holding `{"posted_ids": []}`, and with a listing the run is not aborted. */
  lemma MalformedCacheRecovery(store: Store, listing: Listing, files: set<string>, env: Env)
    requires store.Missing? || store.Malformed?
    ensures Run(store, listing, files, env) == Run(Holds(Object(Some([]))), listing, files, env)
    ensures listing.Listed? ==> !Run(store, listing, files, env).Aborted?
  {
  }

  /** A finished run is the loop over the reversed selection, from the loaded ledger. */
  lemma FinishedRun(store: Store, listing: Listing, files: set<string>, env: Env)
    requires Run(store, listing, files, env).Finished?
    ensures LoadLedger(store).Some? && listing.Listed?
    ensures Run(store, listing, files, env).state ==
              RelayAll(Initial(LoadLedger(store).value, files), Reverse(Select(listing.videos, LoadLedger(store).value)), env)
  {
  }

  /** Looping over a reversed sequence attempts its elements last first. */
  lemma ReversedAttempts(ledger: seq<string>, files: set<string>, unseen: seq<Video>, env: Env)
    ensures var report := RelayAll(Initial(ledger, files), Reverse(unseen), env).report;
            |report| == |unseen| &&
            forall i :: 0 <= i < |report| ==> report[i].id == unseen[|unseen| - 1 - i].id
  {
    var items := Reverse(unseen);
    RelayAllAttempts(Initial(ledger, files), items, env);
  }

  /** The selected videos are processed in reverse, so a newest-first listing is handled
      oldest first, and every selected video is processed exactly once. */
  lemma RunOrder(store: Store, listing: Listing, files: set<string>, env: Env)
    requires Run(store, listing, files, env).Finished?
    ensures var unseen := Select(listing.videos, LoadLedger(store).value);
            var report := Run(store, listing, files, env).state.report;
            |report| == |unseen| &&
            forall i :: 0 <= i < |report| ==> report[i].id == unseen[|unseen| - 1 - i].id
  {
    FinishedRun(store, listing, files, env);
    ReversedAttempts(LoadLedger(store).value, files, Select(listing.videos, LoadLedger(store).value), env);
  }

  /** Idempotence across runs: no video whose id the loaded ledger holds is downloaded. */
  lemma RunSkipsPosted(store: Store, listing: Listing, files: set<string>, env: Env)
    requires Run(store, listing, files, env).Finished?
    ensures var report := Run(store, listing, files, env).state.report;
            forall i :: 0 <= i < |report| ==> report[i].id !in LoadLedger(store).value
  {
    var ledger := LoadLedger(store).value;
    var unseen := Select(listing.videos, ledger);
    var report := Run(store, listing, files, env).state.report;
    RunOrder(store, listing, files, env);
    forall i | 0 <= i < |report|
      ensures report[i].id !in ledger
    {
      assert report[i].id == unseen[|unseen| - 1 - i].id;
    }
  }

  /** Append-only, commit only on a post, flushed after every commit, and no duplicate
      introduced: the run's ledger is the loaded one followed by the keys of the posted
      videos, the cache file written last holds it, and a duplicate-free ledger stays so. */
  lemma RunLedger(store: Store, listing: Listing, files: set<string>, env: Env)
    requires Run(store, listing, files, env).Finished?
    ensures var t := Run(store, listing, files, env).state;
            t.ledger == LoadLedger(store).value + CommittedKeys(t.report)
    ensures var t := Run(store, listing, files, env).state;
            Durable(t) && |t.saves| == |CommittedKeys(t.report)|
    ensures NoDuplicates(LoadLedger(store).value) ==> NoDuplicates(Run(store, listing, files, env).state.ledger)
  {
    FinishedRun(store, listing, files, env);
    var ledger := LoadLedger(store).value;
    var s := Initial(ledger, files);
    var items := Reverse(Select(listing.videos, ledger));
    RelayAllCommits(s, items, env);
    RelayAllDurable(s, items, env);
    RelayAllSaves(s, items, env);
    if NoDuplicates(ledger) {
      RelayAllNoDuplicates(s, items, env);
    }
  }

  /** With plain ids the key recorded is the video's own id: the run's ledger is the
      loaded one followed by the ids of the posted videos, in the order they were posted. */
  lemma RunCommitsOwnIds(store: Store, listing: Listing, files: set<string>, env: Env)
    requires Run(store, listing, files, env).Finished?
    requires forall v :: v in listing.videos ==> PlainId(v.id)
    ensures var t := Run(store, listing, files, env).state;
            t.ledger == LoadLedger(store).value + PostedIds(t.report)
  {
    FinishedRun(store, listing, files, env);
    var ledger := LoadLedger(store).value;
    var unseen := Select(listing.videos, ledger);
    var t := RelayAll(Initial(ledger, files), Reverse(unseen), env);
    RelayAllCommits(Initial(ledger, files), Reverse(unseen), env);
    ReversedAttempts(ledger, files, unseen, env);
    forall k | 0 <= k < |t.report|
      ensures PlainId(t.report[k].id)
    {
      var v := unseen[|unseen| - 1 - k];
      SelectMembers(listing.videos, ledger, v);
    }
    CommittedKeysOfPlainIds(t.report);
  }

  /** Cleanup: after a run no selected video's file is on disk, and every other file is
      as it was. */
  lemma RunCleanup(store: Store, listing: Listing, files: set<string>, env: Env)
    requires Run(store, listing, files, env).Finished?
    ensures Run(store, listing, files, env).state.files ==
              files - FilesOf(Select(listing.videos, LoadLedger(store).value))
  {
    FinishedRun(store, listing, files, env);
    var unseen := Select(listing.videos, LoadLedger(store).value);
    var items := Reverse(unseen);
    RelayAllFiles(Initial(LoadLedger(store).value, files), items, env);
    forall v | v in unseen
      ensures v in items
    {
      var i :| 0 <= i < |unseen| && unseen[i] == v;
      assert items[|unseen| - 1 - i] == v;
    }
    assert FilesOf(items) == FilesOf(unseen);
  }

  /** The loop over a newest-first listing whose videos are all new, distinct, plainly
      named and transferred successfully appends their ids oldest first. */
  lemma ReversedAllSucceed(ledger: seq<string>, videos: seq<Video>, files: set<string>, env: Env)
    requires forall i :: 0 <= i < |videos| ==> PlainId(videos[i].id) && videos[i].id !in ledger
    requires DistinctIds(videos)
    requires forall v :: v in videos ==> env.download(v).Fetched? && env.upload(v.id, Caption(v))
    ensures RelayAll(Initial(ledger, files), Reverse(videos), env).ledger == ledger + Reverse(Ids(videos))
  {
    var items := Reverse(videos);
    forall i | 0 <= i < |items|
      ensures PlainId(items[i].id) && items[i].id !in ledger
      ensures env.download(items[i]).Fetched? && env.upload(items[i].id, Caption(items[i]))
    {
      assert items[i] == videos[|videos| - 1 - i];
    }
    ReverseIds(videos);
    RelayAllAllSucceed(Initial(ledger, files), items, env);
  }

  /** Chronological posting: when all listed videos are new, distinct, plainly named and
      every transfer succeeds, a listing `[c5, c4, c3]` leaves the ledger extended by
      `c3, c4, c5`. */
  lemma RunPostsOldestFirst(store: Store, videos: seq<Video>, files: set<string>, env: Env)
    requires LoadLedger(store).Some? && videos != []
    requires forall i :: 0 <= i < |videos| ==> PlainId(videos[i].id) && videos[i].id !in LoadLedger(store).value
    requires DistinctIds(videos)
    requires forall v :: v in videos ==> env.download(v).Fetched? && env.upload(v.id, Caption(v))
    ensures Run(store, Listed(videos), files, env).Finished?
    ensures Run(store, Listed(videos), files, env).state.ledger == LoadLedger(store).value + Reverse(Ids(videos))
  {
    var ledger := LoadLedger(store).value;
    SelectAllNew(videos, ledger);
    ReversedAllSucceed(ledger, videos, files, env);
    assert Run(store, Listed(videos), files, env) == Finished(RelayAll(Initial(ledger, files), Reverse(videos), env));
  }
}
