/** The playlist half of the download engine, updated in place. */
module PlaylistEngine {
  import opened Basics
  import opened Playlist

  class Engine {
    var itemCount: nat
    var nextIndexToStart: nat
    var activeCount: int
    var completedCount: nat
    var maxConcurrency: int
    var activeProcesses: set<nat>
    var cancelled: bool
    var isPlaylistDownloading: bool
    // The world around the engine: live processes, the exit codes so far, and what was started and announced.
    var live: set<nat>
    var exitCodes: map<nat, int>
    var fired: seq<Event>

    ghost function View(): State
      reads this
    {
      State(itemCount, nextIndexToStart, activeCount, completedCount, maxConcurrency, activeProcesses, cancelled,
        isPlaylistDownloading, live, exitCodes, fired)
    }

    constructor ()
      ensures View() == State(0, 0, 0, 0, 0, {}, false, false, {}, map[], [])
    {
      itemCount, nextIndexToStart, activeCount, completedCount, maxConcurrency := 0, 0, 0, 0, 0;
      activeProcesses, cancelled, isPlaylistDownloading := {}, false, false;
      live, exitCodes, fired := {}, map[], [];
    }

    method ProcessNextPlaylistItem()
      modifies this
      ensures View() == ProcessNext(old(View()))
    {
      if cancelled {
        return;
      }
      if nextIndexToStart >= itemCount {
        if activeCount == 0 {
          isPlaylistDownloading := false;
          fired := fired + [Done(completedCount)];
        }
        return;
      }
      var itemIndex := nextIndexToStart;
      nextIndexToStart := nextIndexToStart + 1;
      activeCount := activeCount + 1;
      activeProcesses := activeProcesses + {itemIndex};
      live := live + {itemIndex};
      fired := fired + [Started(itemIndex)];
    }

    // No process of an earlier run is alive.
    method StartPlaylistDownload(entryCount: nat, concurrency: int)
      requires live == {}
      modifies this
      ensures View() == Begin(entryCount, concurrency)
    {
      itemCount, nextIndexToStart, activeCount, completedCount, maxConcurrency := entryCount, 0, 0, 0, concurrency;
      activeProcesses, cancelled, isPlaylistDownloading := {}, false, true;
      exitCodes, fired := map[], [];
      StartItems(Min(concurrency, entryCount));
    }

    method StartItems(startCount: int)
      modifies this
      ensures View() == if startCount <= 0 then old(View()) else ProcessTimes(old(View()), startCount)
    {
      var i := 0;
      while i < startCount
        invariant 0 <= i && (i <= startCount || i == 0)
        invariant View() == ProcessTimes(old(View()), i)
      {
        ProcessNextPlaylistItem();
        i := i + 1;
      }
    }

    // A process has ended.
    method OnFinished(itemIndex: nat, code: int)
      modifies this
      ensures View() == Finished(old(View()), itemIndex, code)
    {
      live := live - {itemIndex};
      exitCodes := exitCodes[itemIndex := code];
      activeCount := activeCount - 1;
      if code == 0 {
        completedCount := completedCount + 1;
      }
      activeProcesses := activeProcesses - {itemIndex};
      if !cancelled {
        ProcessNextPlaylistItem();
      } else if activeCount == 0 {
        isPlaylistDownloading := false;
      }
    }

    // The deaths are the killed processes that end while the engine waits for them.
    method CancelPlaylistDownload(deaths: seq<Death>)
      modifies this
      ensures View() == Cancel(old(View()), deaths)
    {
      cancelled := true;
      isPlaylistDownloading := false;
      ghost var s := View();
      var i := 0;
      while i < |deaths|
        invariant 0 <= i <= |deaths|
        invariant Deaths(View(), deaths[i..]) == Deaths(s, deaths)
      {
        assert deaths[i..][0] == deaths[i] && deaths[i..][1..] == deaths[i + 1..];
        OnFinished(deaths[i].index, deaths[i].code);
        i := i + 1;
      }
      activeProcesses := {};
      activeCount := 0;
    }
  }
}
