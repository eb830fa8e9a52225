/** Fetching many files' diffs in few requests, each diff filed under its own file. */
module GitDiffBatches {
  import opened Common

  const MAX_FILES := 128

  /** The diff of `path` is taken from place `index` of the answer to request `request`. */
  datatype Prefetch = Prefetch(path: string, request: nat, index: nat)

  /** `p` takes the `i`-th file's diff from the place that file has in its request. */
  ghost predicate Filed(p: Prefetch, i: nat, files: seq<string>, requests: seq<seq<string>>)
    requires i < |files|
  {
    && p.path == files[i] && p.request < |requests| && p.index < |requests[p.request]|
    && requests[p.request][p.index] == files[i] && p.request * MAX_FILES + p.index == i
  }

  /** The places of one request's files in its answer. */
  method PrefetchBatch(batch: seq<string>, request: nat) returns (prefetches: seq<Prefetch>)
    ensures |prefetches| == |batch|
    ensures forall i :: 0 <= i < |batch| ==> prefetches[i] == Prefetch(batch[i], request, i)
  {
    prefetches := [];
    for index := 0 to |batch|
      invariant |prefetches| == index
      invariant forall i :: 0 <= i < index ==> prefetches[i] == Prefetch(batch[i], request, i)
    {
      prefetches := prefetches + [Prefetch(batch[index], request, index)];
    }
  }

  /** Another request and the places of its files behind the ones before. */
  lemma OneMoreRequest(prefetches: seq<Prefetch>, more: seq<Prefetch>, files: seq<string>, requests: seq<seq<string>>,
                       start: nat, end: nat)
    requires start == MAX_FILES * |requests| == |prefetches| && start <= end <= |files| && |more| == end - start
    requires forall i :: 0 <= i < start ==> Filed(prefetches[i], i, files, requests)
    requires forall i :: 0 <= i < |more| ==> more[i] == Prefetch(files[start + i], |requests|, i)
    ensures forall i :: 0 <= i < end ==> Filed((prefetches + more)[i], i, files, requests + [files[start..end]])
  {
    forall i | 0 <= i < end
      ensures Filed((prefetches + more)[i], i, files, requests + [files[start..end]])
    {
      if i < start {
        assert Filed(prefetches[i], i, files, requests);
      } else {
        assert (prefetches + more)[i] == more[i - start];
      }
    }
  }

  /** Every file is requested once, in order, and finds its diff at its own place of its own request. */
  method FetchGitDiffBatches(files: seq<string>) returns (requests: seq<seq<string>>, prefetches: seq<Prefetch>)
    ensures Flatten(requests) == files
    ensures forall r <- requests :: 0 < |r| <= MAX_FILES
    ensures |requests| == (|files| + MAX_FILES - 1) / MAX_FILES
    ensures |prefetches| == |files|
    ensures forall i :: 0 <= i < |files| ==> Filed(prefetches[i], i, files, requests)
  {
    requests, prefetches := [], [];
    var start := 0;
    while start < |files|
      invariant 0 <= start && Flatten(requests) == files[..if start < |files| then start else |files|]
      invariant start == MAX_FILES * |requests| && start < |files| + MAX_FILES
      invariant forall r <- requests :: 0 < |r| <= MAX_FILES
      invariant |prefetches| == if start < |files| then start else |files|
      invariant forall i :: 0 <= i < |prefetches| ==> Filed(prefetches[i], i, files, requests)
    {
      var end := if start + MAX_FILES < |files| then start + MAX_FILES else |files|;
      var batch := files[start..end];
      var more := PrefetchBatch(batch, |requests|);
      OneMoreRequest(prefetches, more, files, requests, start, end);
      FlattenMore(requests, batch);
      requests, prefetches := requests + [batch], prefetches + more;
      start := start + MAX_FILES;
    }
  }
}
