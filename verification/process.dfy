/** `process_files` and `count_file` (src/counter.rs:78-104): each path is
    opened and counted on its own and the outcomes are collected in input
    order. The parallel map is modelled as a sequential one; opening a file
    is a parameter that says, per path, what the operating system answers. */
module Process {
  import opened Types
  import opened Results
  import Counter

  /** What opening a path yields: a reader, or the OS error text. */
  datatype Opened = Opened(stream: seq<Counter.ReadResult>) | OpenFailed(msg: string)

  /** `count_file`: a path counts when it opens and its reader ends
      without an error, and then its counts are those of the chunks read;
      otherwise the open error, or else the read error, is the path's error. */
  function CountFile(path: string, open: string -> Opened, flags: Flags): (r: Result<Counts>)
    ensures r.Success? <==> open(path).Opened? && Counter.FirstFailure(open(path).stream).None?
    ensures r.Success? ==> r.value == Counter.CountChunks(Counter.Delivered(open(path).stream), flags)
    ensures r.Failure? ==>
              r.error == if open(path).OpenFailed? then open(path).msg
                         else Counter.FirstFailure(open(path).stream).value
  {
    match open(path)
    case OpenFailed(m) => Failure(m)
    case Opened(stream) => Counter.CountReader(stream, flags)
  }

  /** Turns a path's counting outcome into the `FileResult` that reports it. */
  function Report(path: string, outcome: Result<Counts>): FileResult
  {
    match outcome
    case Success(c) => Ok(path, c)
    case Failure(m) => Err(path, m)
  }

  /** `process_files`: one result per path, in the order of the paths;
      each result depends on its own path only. */
  function ProcessFiles(paths: seq<string>, open: string -> Opened, flags: Flags): (rs: seq<FileResult>)
    ensures |rs| == |paths|
    ensures forall i :: 0 <= i < |paths| ==> rs[i].path == paths[i]
    ensures forall i :: 0 <= i < |paths| ==>
              (rs[i].Ok? <==> CountFile(paths[i], open, flags).Success?)
    ensures forall i :: 0 <= i < |paths| && rs[i].Ok? ==>
              rs[i].counts == CountFile(paths[i], open, flags).value
    ensures forall i :: 0 <= i < |paths| && rs[i].Err? ==>
              rs[i].msg == CountFile(paths[i], open, flags).error
    decreases |paths|
  {
    if |paths| == 0 then []
    else [Report(paths[0], CountFile(paths[0], open, flags))] + ProcessFiles(paths[1..], open, flags)
  }

  /** Splitting the path list, processing the parts separately and joining
      the results in order gives the same results: the order-preserving
      collect of a parallel map. */
  lemma {:induction false} ProcessFilesSplits(a: seq<string>, b: seq<string>, open: string -> Opened, flags: Flags)
    ensures ProcessFiles(a + b, open, flags) == ProcessFiles(a, open, flags) + ProcessFiles(b, open, flags)
    decreases |a|
  {
    if |a| == 0 {
      assert a + b == b;
    } else {
      assert (a + b)[0] == a[0];
      assert (a + b)[1..] == a[1..] + b;
      ProcessFilesSplits(a[1..], b, open, flags);
    }
  }

  /** A path's result does not depend on what opening any other path does. */
  lemma FailureIsIsolated(paths: seq<string>, open1: string -> Opened, open2: string -> Opened,
                          flags: Flags, i: nat)
    requires i < |paths|
    requires open1(paths[i]) == open2(paths[i])
    ensures ProcessFiles(paths, open1, flags)[i] == ProcessFiles(paths, open2, flags)[i]
  {
  }
}
