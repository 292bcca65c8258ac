/** The load bookkeeping of DataReaderHelper: the list of configuration files
    already added, the queue of asynchronous requests, the queue of decoded
    results the loader thread posts back, and the two counters the progress
    reported to a caller is computed from. The loader thread is one step,
    LoadNext, taken in sequence with the rest. */
module Loader {
  import opened Results
  import opened Paths

  /** What a load hands its decoder: the file name, the directory relative
      references are resolved against, and the decoder the extension selects. */
  datatype LoadRequest = LoadRequest(filename: string, baseFilePath: string, configType: Option<ConfigType>)

  function RequestFor(filePath: string): LoadRequest {
    LoadRequest(filePath, BasePath(filePath), ConfigTypeOf(filePath))
  }

  /** AsyncStruct: one queued request; hasCallback stands for a target with
      a selector. */
  datatype AsyncStruct = AsyncStruct(request: LoadRequest, imagePath: string, plistPath: string, hasCallback: bool)

  /** The DataInfo the loader thread posts back: the request and the sprite
      sheets the decoded document named (its config file queue). */
  datatype AsyncResult = AsyncResult(asyncStruct: AsyncStruct, configFileQueue: seq<string>)

  // ----- the configuration file list -----

  /** The index of the last entry equal to `path`. */
  function LastMatch(list: seq<string>, path: string): (r: Option<nat>)
    ensures r.Some? ==> r.value < |list| && list[r.value] == path && path !in list[r.value + 1..]
    ensures r.None? <==> path !in list
  {
    if list == [] then None
    else if list[|list| - 1] == path then Some(|list| - 1)
    else
      var r := LastMatch(list[..|list| - 1], path);
      assert list == list[..|list| - 1] + [list[|list| - 1]];
      if r.Some? then
        assert list[r.value + 1..] == list[..|list| - 1][r.value + 1..] + [list[|list| - 1]];
        r
      else r
  }

  /** The list with its last entry equal to `path` erased. */
  function RemoveLast(list: seq<string>, path: string): seq<string> {
    match LastMatch(list, path)
    case Some(k) => list[..k] + list[k + 1..]
    case None => list
  }

  /** Removing takes out one occurrence of the path and nothing else: an
      absent path leaves the list alone, a present one loses its last entry,
      so every entry before it stays where it was and those after it move up
      by one. */
  lemma RemoveLastSpec(list: seq<string>, path: string)
    ensures path !in list ==> RemoveLast(list, path) == list
    ensures path in list ==> |RemoveLast(list, path)| == |list| - 1
    ensures path in list ==> multiset(RemoveLast(list, path)) == multiset(list) - multiset{path}
    ensures path in list ==> var k := LastMatch(list, path).value;
      RemoveLast(list, path)[..k] == list[..k] && RemoveLast(list, path)[k..] == list[k + 1..]
      && path !in RemoveLast(list, path)[k..]
  {
    if path in list {
      var k := LastMatch(list, path).value;
      var r := list[..k] + list[k + 1..];
      assert RemoveLast(list, path) == r;
      assert r[..k] == list[..k] && r[k..] == list[k + 1..];
      ErasedOne(list, k);
    }
  }

  /** Erasing entry k takes away one occurrence of it. */
  lemma ErasedOne(list: seq<string>, k: nat)
    requires k < |list|
    ensures multiset(list[..k] + list[k + 1..]) == multiset(list) - multiset{list[k]}
  {
    assert list == list[..k] + [list[k]] + list[k + 1..];
  }

  /** Adding a path that was not listed and then removing it gives the list
      back. */
  lemma {:induction false} AddThenRemove(list: seq<string>, path: string)
    requires path !in list
    ensures RemoveLast(list + [path], path) == list
  {
    assert (list + [path])[..|list|] == list;
  }

  /** Removing the one occurrence a path has unlists it. */
  lemma RemoveUnlists(list: seq<string>, path: string)
    requires multiset(list)[path] == 1
    ensures path !in RemoveLast(list, path)
  {
    RemoveLastSpec(list, path);
    assert multiset(RemoveLast(list, path))[path] == 0;
  }

  // ----- progress -----

  /** The fraction a caller is told: the part of all requests made since the
      counters were last reset that is no longer in flight. */
  function Progress(total: int, inFlight: int): real
    requires total > 0
  {
    (total - inFlight) as real / total as real
  }

  /** What a repeated request reports: 1 when nothing is loading. */
  function DuplicateProgress(total: int, inFlight: int): real
    requires 0 <= inFlight <= total
  {
    if total == 0 && inFlight == 0 then 1.0 else Progress(total, inFlight)
  }

  /** A fraction of whole requests: in [0, 1], 1 exactly when nothing is in
      flight, and above 0 once one request has come back. */
  lemma ProgressBounds(total: int, inFlight: int)
    requires 0 <= inFlight <= total && total > 0
    ensures 0.0 <= Progress(total, inFlight) <= 1.0
    ensures Progress(total, inFlight) == 1.0 <==> inFlight == 0
    ensures inFlight < total ==> Progress(total, inFlight) > 0.0
  {
    var t, p := total as real, Progress(total, inFlight);
    assert p * t == (total - inFlight) as real;
  }

  /** Each result drained raises the progress by one share. */
  lemma ProgressStep(total: int, inFlight: int)
    requires 0 < inFlight <= total
    ensures Progress(total, inFlight - 1) == Progress(total, inFlight) + 1.0 / total as real
  {
    var t := total as real;
    assert Progress(total, inFlight - 1) * t == (total - inFlight) as real + 1.0;
    assert Progress(total, inFlight) * t == (total - inFlight) as real;
    assert (1.0 / t) * t == 1.0;
  }

  /** Fewer requests in flight never report less. */
  lemma {:induction false} ProgressMonotone(total: int, before: int, after: int)
    requires 0 <= after <= before <= total && total > 0
    ensures Progress(total, before) <= Progress(total, after)
    decreases before - after
  {
    if after < before {
      ProgressStep(total, before);
      ProgressMonotone(total, before - 1, after);
      assert 1.0 / total as real > 0.0;
    }
  }

  /** A repeated request reports a fraction in [0, 1], and 1 exactly when
      nothing is in flight. */
  lemma DuplicateProgressBounds(total: int, inFlight: int)
    requires 0 <= inFlight <= total
    ensures 0.0 <= DuplicateProgress(total, inFlight) <= 1.0
    ensures DuplicateProgress(total, inFlight) == 1.0 <==> inFlight == 0
  {
    if total > 0 {
      ProgressBounds(total, inFlight);
    }
  }

  // ----- sprite sheets -----

  /** The sprite-frame files a drained result loads, as (plist, image) pairs
      in order: the request's own pair when both paths are given, then one
      pair per config file the document named, beside the document. */
  function SpriteFiles(res: AsyncResult): (r: seq<(string, string)>)
    ensures |r| == |res.configFileQueue| + (if res.asyncStruct.imagePath != "" && res.asyncStruct.plistPath != "" then 1 else 0)
  {
    var s := res.asyncStruct;
    (if s.imagePath != "" && s.plistPath != "" then [(s.plistPath, s.imagePath)] else [])
      + SheetFiles(s.request.baseFilePath, res.configFileQueue)
  }

  /** The (plist, png) pair of each config path, resolved against `base`. */
  function SheetFiles(base: string, configPaths: seq<string>): (r: seq<(string, string)>)
    ensures |r| == |configPaths|
  {
    seq(|configPaths|, k requires 0 <= k < |configPaths| => (base + configPaths[k] + ".plist", base + configPaths[k] + ".png"))
  }

  // ----- the helper -----

  class DataReaderHelper {
    /** _configFileList: every file added so far, in order. The source keeps
        it in a static, shared by every helper and emptied only by purge. */
    var configFileList: seq<string>
    /** _asyncRefCount: requests made and not yet drained. */
    var asyncRefCount: int
    /** _asyncRefTotalCount: requests made since the counters were reset. */
    var asyncRefTotalCount: int
    /** _asyncStructQueue: requests the loader thread has not taken. */
    var asyncStructQueue: seq<AsyncStruct>
    /** _dataQueue: results the callback has not drained. */
    var dataQueue: seq<AsyncResult>
    /** Whether addDataAsyncCallBack is scheduled. */
    var callbackScheduled: bool
    /** The sprite-frame files handed to the armature data manager, in order. */
    var loadedSpriteFiles: seq<(string, string)>

    /** Every request in flight is in one of the two queues, the counters
        are reset whenever nothing is in flight, and the callback is
        scheduled exactly while something is. */
    ghost predicate Valid()
      reads this
    {
      0 <= asyncRefCount <= asyncRefTotalCount
      && (asyncRefCount == 0 ==> asyncRefTotalCount == 0)
      && asyncRefCount == |asyncStructQueue| + |dataQueue|
      && callbackScheduled == (asyncRefCount > 0)
    }

    /** A new helper: empty queues and counters; the file list is the shared
        one, as earlier helpers left it. */
    constructor (listed: seq<string>)
      ensures Valid()
      ensures configFileList == listed && asyncStructQueue == [] && dataQueue == [] && loadedSpriteFiles == []
      ensures asyncRefCount == 0 && asyncRefTotalCount == 0
    {
      configFileList := listed;
      asyncRefCount, asyncRefTotalCount := 0, 0;
      asyncStructQueue, dataQueue := [], [];
      callbackScheduled := false;
      loadedSpriteFiles := [];
    }

    /** purge: the file list is emptied, so every file can be loaded again. */
    method Purge()
      modifies this`configFileList
      ensures configFileList == []
    {
      configFileList := [];
    }

    /** The duplicate check both loaders start with. */
    method IsListed(filePath: string) returns (listed: bool)
      ensures listed <==> filePath in configFileList
    {
      var i := 0;
      while i < |configFileList|
        invariant 0 <= i <= |configFileList|
        invariant filePath !in configFileList[..i]
      {
        if configFileList[i] == filePath {
          return true;
        }
        assert configFileList[..i + 1] == configFileList[..i] + [configFileList[i]];
        i := i + 1;
      }
      assert configFileList[..i] == configFileList;
      return false;
    }

    /** addDataFromFile: a listed file is ignored; otherwise it is listed and
        handed to the decoder its extension selects. */
    method AddDataFromFile(filePath: string) returns (r: Option<LoadRequest>)
      requires Valid()
      modifies this`configFileList
      ensures Valid()
      ensures old(filePath in configFileList) ==> configFileList == old(configFileList) && r.None?
      ensures old(filePath !in configFileList) ==>
        configFileList == old(configFileList) + [filePath] && r == Some(RequestFor(filePath))
    {
      var listed := IsListed(filePath);
      if listed {
        return None;
      }
      configFileList := configFileList + [filePath];
      r := Some(RequestFor(filePath));
    }

    /** addDataFromFileAsync: a listed file only reports the progress so far
        (to a caller with a callback); otherwise it is listed, counted in both
        counters and queued for the loader thread, and the callback is
        scheduled if nothing was in flight. */
    method AddDataFromFileAsync(imagePath: string, plistPath: string, filePath: string, hasCallback: bool)
      returns (report: Option<real>)
      requires Valid()
      modifies this`configFileList, this`asyncRefCount, this`asyncRefTotalCount, this`asyncStructQueue, this`callbackScheduled
      ensures Valid()
      ensures old(filePath in configFileList) ==>
        configFileList == old(configFileList) && asyncStructQueue == old(asyncStructQueue)
        && asyncRefCount == old(asyncRefCount) && asyncRefTotalCount == old(asyncRefTotalCount)
        && callbackScheduled == old(callbackScheduled)
        && report == (if hasCallback then Some(DuplicateProgress(old(asyncRefTotalCount), old(asyncRefCount))) else None)
      ensures old(filePath !in configFileList) ==>
        configFileList == old(configFileList) + [filePath]
        && asyncRefCount == old(asyncRefCount) + 1 && asyncRefTotalCount == old(asyncRefTotalCount) + 1
        && asyncStructQueue == old(asyncStructQueue) + [AsyncStruct(RequestFor(filePath), imagePath, plistPath, hasCallback)]
        && callbackScheduled && report.None?
    {
      var listed := IsListed(filePath);
      if listed {
        if hasCallback {
          report := Some(DuplicateProgress(asyncRefTotalCount, asyncRefCount));
        } else {
          report := None;
        }
        return;
      }
      configFileList := configFileList + [filePath];
      if asyncRefCount == 0 {
        callbackScheduled := true;
      }
      asyncRefCount := asyncRefCount + 1;
      asyncRefTotalCount := asyncRefTotalCount + 1;
      var data := AsyncStruct(RequestFor(filePath), imagePath, plistPath, hasCallback);
      asyncStructQueue := asyncStructQueue + [data];
      report := None;
    }

    /** One turn of the loader thread: the oldest request is decoded (which
        finds `configFileQueue`) and its result posted back. */
    method LoadNext(configFileQueue: seq<string>)
      requires Valid() && asyncStructQueue != []
      modifies this`asyncStructQueue, this`dataQueue
      ensures Valid()
      ensures asyncStructQueue == old(asyncStructQueue[1..])
      ensures dataQueue == old(dataQueue) + [AsyncResult(old(asyncStructQueue[0]), configFileQueue)]
    {
      var data := asyncStructQueue[0];
      asyncStructQueue := asyncStructQueue[1..];
      dataQueue := dataQueue + [AsyncResult(data, configFileQueue)];
    }

    /** addDataAsyncCallBack: with nothing posted back nothing happens;
        otherwise the oldest result loads its sprite sheets, leaves the
        in-flight count, reports the new progress (to a caller with a
        callback), and, when it was the last in flight, resets the total and
        unschedules the callback. */
    method AddDataAsyncCallBack() returns (report: Option<real>)
      requires Valid()
      modifies this`dataQueue, this`asyncRefCount, this`asyncRefTotalCount, this`callbackScheduled, this`loadedSpriteFiles
      ensures Valid()
      ensures old(dataQueue) == [] ==>
        dataQueue == [] && asyncRefCount == old(asyncRefCount) && asyncRefTotalCount == old(asyncRefTotalCount)
        && callbackScheduled == old(callbackScheduled) && loadedSpriteFiles == old(loadedSpriteFiles) && report.None?
      ensures old(dataQueue) != [] ==>
        dataQueue == old(dataQueue[1..])
        && loadedSpriteFiles == old(loadedSpriteFiles) + SpriteFiles(old(dataQueue[0]))
        && asyncRefCount == old(asyncRefCount) - 1
        && asyncRefTotalCount == (if asyncRefCount == 0 then 0 else old(asyncRefTotalCount))
        && report == (if old(dataQueue[0]).asyncStruct.hasCallback
                      then Some(Progress(old(asyncRefTotalCount), old(asyncRefCount) - 1)) else None)
    {
      if dataQueue == [] {
        return None;
      }
      var dataInfo := dataQueue[0];
      dataQueue := dataQueue[1..];
      var asyncStruct := dataInfo.asyncStruct;
      LoadSpriteFiles(dataInfo);
      asyncRefCount := asyncRefCount - 1;
      if asyncStruct.hasCallback {
        report := Some(Progress(asyncRefTotalCount, asyncRefCount));
      } else {
        report := None;
      }
      if asyncRefCount == 0 {
        asyncRefTotalCount := 0;
        callbackScheduled := false;
      }
    }

    /** The sprite sheets of one drained result handed to the armature data
        manager: the request's own pair when both paths are given, then each
        config file's plist and png, in queue order. */
    method LoadSpriteFiles(dataInfo: AsyncResult)
      modifies this`loadedSpriteFiles
      ensures loadedSpriteFiles == old(loadedSpriteFiles) + SpriteFiles(dataInfo)
    {
      var asyncStruct := dataInfo.asyncStruct;
      if asyncStruct.imagePath != "" && asyncStruct.plistPath != "" {
        loadedSpriteFiles := loadedSpriteFiles + [(asyncStruct.plistPath, asyncStruct.imagePath)];
      }
      ghost var before := loadedSpriteFiles;
      var base := asyncStruct.request.baseFilePath;
      var configFileQueue := dataInfo.configFileQueue;
      ghost var all := dataInfo.configFileQueue;
      while configFileQueue != []
        invariant |configFileQueue| <= |all|
        invariant configFileQueue == all[|all| - |configFileQueue|..]
        invariant loadedSpriteFiles == before + SheetFiles(base, all[..|all| - |configFileQueue|])
      {
        ghost var done := |all| - |configFileQueue|;
        var configPath := configFileQueue[0];
        assert all[..done + 1] == all[..done] + [configPath];
        loadedSpriteFiles := loadedSpriteFiles + [(base + configPath + ".plist", base + configPath + ".png")];
        configFileQueue := configFileQueue[1..];
      }
      assert all[..|all|] == all;
    }

    /** removeConfigFile: the last entry equal to the path is erased; an
        unlisted path changes nothing. */
    method RemoveConfigFile(configFile: string)
      modifies this`configFileList
      ensures configFileList == RemoveLast(old(configFileList), configFile)
    {
      var it: Option<nat> := None;
      var i := 0;
      while i < |configFileList|
        invariant 0 <= i <= |configFileList|
        invariant it == LastMatch(configFileList[..i], configFile)
      {
        assert configFileList[..i + 1][..i] == configFileList[..i];
        if configFileList[i] == configFile {
          it := Some(i);
        }
        i := i + 1;
      }
      assert configFileList[..i] == configFileList;
      if it.Some? {
        configFileList := configFileList[..it.value] + configFileList[it.value + 1..];
      }
    }
  }
}
