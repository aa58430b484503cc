/** `PackMetadataRetriever`: tracks the current pack URI, runs one background
    task per URI change, and hands the parsed pack descriptor to
    `onDataUpdated`. Background tasks and the event queue of the UI thread
    are explicit: a task finishes when the model says so, and each `DONE`
    state change waits in `notices` until the UI thread dispatches it. */
module Retriever {
  import opened Base

  /** `java.net.URI`, compared by value. */
  datatype Uri = Uri(scheme: Option<string>, path: string)

  datatype IndexFileLoc = IndexFileLoc(file: string, hashFormat: string, hash: string)

  /** The pack formats this installer understands. */
  datatype Format = Default

  /** The tag a pack declares for its format. */
  function FormatTag(f: Format): (tag: string)
    ensures f == Default ==> tag == "packwiz:1.0.0"
  {
    match f
    case Default => "packwiz:1.0.0"
  }

  /** The parsed `pack.toml`. */
  datatype Data = Data(
    name: string,
    author: string,
    version: string,
    packFormat: Format,
    index: IndexFileLoc,
    versions: map<string, string>)

  datatype Channel = Network | LocalFile

  /** The scheme switch of the background task. */
  function ChannelFor(scheme: Option<string>): (r: Result<Channel>)
    ensures r == Ok(Network) <==> scheme == Some("http") || scheme == Some("https")
    ensures r == Ok(LocalFile) <==> scheme == Some("file")
    ensures scheme.Some? && r.Err? ==> r.message == "Invalid URL scheme supplied: " + scheme.value
  {
    match scheme
    case None => Err("NullPointerException")
    case Some(s) =>
      if s == "http" || s == "https" then Ok(Network)
      else if s == "file" then Ok(LocalFile)
      else Err("Invalid URL scheme supplied: " + s)
  }

  /** `doInBackground()`: open the stream the scheme selects and parse it.
      `read` stands for the stream plus the TOML mapping. */
  function Retrieve(uri: Uri, read: (Channel, Uri) -> Fetch<Data>): (r: Result<Data>)
    ensures ChannelFor(uri.scheme).Err? ==> r == Err(ChannelFor(uri.scheme).message)
    ensures ChannelFor(uri.scheme).Ok? ==>
      (r.Ok? <==> read(ChannelFor(uri.scheme).value, uri).Fetched?)
    ensures r.Ok? ==> r.value == read(ChannelFor(uri.scheme).value, uri).content
  {
    match ChannelFor(uri.scheme)
    case Err(m) => Err(m)
    case Ok(c) =>
      match read(c, uri)
      case Fetched(data) => Ok(data)
      case FetchFailed(reason) => Err(reason)
  }

  datatype Status = Running | Succeeded(data: Data) | Failed(message: string) | Cancelled

  /** One `MetadataRetrieverTask`. */
  datatype Worker = Worker(uri: Uri, status: Status)

  /** One call of `onDataUpdated`: the value passed and the task it was read
      from. */
  datatype Delivery = Delivery(task: nat, data: Data)

  /** `packUri`, `data` and `task` are the three fields; `task` indexes
      `workers`, every task ever started. `blockedOn` is the task whose
      `get()` the UI thread is waiting in, for the oldest queued notice. */
  datatype Retriever = Retriever(
    packUri: Option<Uri>,
    data: Option<Data>,
    task: Option<nat>,
    workers: seq<Worker>,
    notices: seq<nat>,
    blockedOn: Option<nat>,
    delivered: seq<Delivery>)

  const Init: Retriever := Retriever(None, None, None, [], [], None, [])

  /** The field invariant: the current task is the newest one, every older
      task has ended, every pending notice is for an ended task, and `data` is
      either empty or the current task's result. The current URI is the
      current task's, unless `update` threw after cancelling that task. The
      UI thread can only be blocked on the current task while it runs. */
  predicate Valid(r: Retriever) {
    && (r.task.None? <==> r.workers == [])
    && (r.task.Some? ==> r.task.value == |r.workers| - 1)
    && (r.workers == [] ==> r.packUri.None?)
    && (r.workers != [] ==>
          r.packUri.Some? &&
          (r.packUri == Some(r.workers[|r.workers| - 1].uri) || r.workers[|r.workers| - 1].status.Cancelled?))
    && (forall i :: 0 <= i < |r.workers| - 1 ==> !r.workers[i].status.Running?)
    && (r.notices != [] ==> r.workers != [])
    && (forall k :: 0 <= k < |r.notices| ==> r.notices[k] < |r.workers| && !r.workers[r.notices[k]].status.Running?)
    && (r.data.Some? ==> r.workers != [] && r.workers[|r.workers| - 1].status == Succeeded(r.data.value))
    && (r.blockedOn.Some? ==> r.notices != [] && r.blockedOn == r.task && Busy(r))
    && (forall k :: 0 <= k < |r.delivered| ==>
          r.delivered[k].task < |r.workers| && r.workers[r.delivered[k].task].status == Succeeded(r.delivered[k].data))
  }

  /** The current task exists and has not ended. */
  predicate Busy(r: Retriever) {
    r.task.Some? && r.task.value < |r.workers| && r.workers[r.task.value].status.Running?
  }

  /** `getData()`. */
  function GetData(r: Retriever): (d: Option<Data>)
    requires Valid(r)
    ensures d == r.data
    ensures d.Some? ==> r.workers != [] && r.workers[|r.workers| - 1].status == Succeeded(d.value)
  {
    r.data
  }

  /** The queue once the listener blocked in `get()` on the current task
      gives up because that task is cancelled: `get()` throws, and the
      notice it was dispatching is done. */
  function Released(r: Retriever): seq<nat>
    requires Valid(r)
  {
    if r.blockedOn.Some? then r.notices[1..] else r.notices
  }

  /** Adopts `u` and starts a task for it, queueing `notices`. */
  function Start(r: Retriever, u: Uri, workers: seq<Worker>, notices: seq<nat>): (r': Retriever)
    requires |workers| == |r.workers|
    requires forall k :: 0 <= k < |r.delivered| ==>
      r.delivered[k].task < |r.workers| && workers[r.delivered[k].task] == r.workers[r.delivered[k].task]
    requires forall i :: 0 <= i < |workers| ==> !workers[i].status.Running?
    requires forall k :: 0 <= k < |notices| ==> notices[k] < |workers|
    requires forall k :: 0 <= k < |r.delivered| ==> r.workers[r.delivered[k].task].status == Succeeded(r.delivered[k].data)
    ensures Valid(r')
    ensures r'.packUri == Some(u) && r'.data.None? && r'.task == Some(|r.workers|)
    ensures r'.workers == workers + [Worker(u, Running)] && r'.notices == notices && r'.delivered == r.delivered
    ensures r'.blockedOn.None?
  {
    Retriever(Some(u), None, Some(|workers|), workers + [Worker(u, Running)], notices, None, r.delivered)
  }

  /** `update(uri)` as written. A URI equal to the current one changes
      nothing and answers false. Any other clears the data and adopts the
      URI, then cancels the previous task if it has not ended. Off the UI
      thread (the debouncer's timer) the cancelled task's `DONE` notice is
      queued and a new task starts. On the UI thread (a paste) `cancel(true)`
      runs that task's `DONE` listener at once; the listener reads the `task`
      field, still the cancelled task, so `get()` throws a
      `CancellationException` that nothing catches, and no task starts.
      Either way, a listener blocked in `get()` on the cancelled task throws
      too, and its notice is done (`Released`). */
  function Update(r: Retriever, u: Uri, onUiThread: bool): (res: (Result<bool>, Retriever))
    requires Valid(r)
    ensures Valid(res.1)
    ensures res.0 == Ok(false) <==> r.packUri == Some(u)
    ensures res.0 == Ok(false) ==> res.1 == r
    ensures res.0.Err? <==> r.packUri != Some(u) && onUiThread && Busy(r)
    ensures res.0.Err? ==> res.0.message == "CancellationException"
    ensures r.packUri != Some(u) ==> res.1.packUri == Some(u) && res.1.data.None?
    ensures r.packUri != Some(u) ==> |res.1.workers| >= |r.workers| && forall i :: 0 <= i < |r.workers| ==>
      res.1.workers[i] == (if r.workers[i].status.Running? then Worker(r.workers[i].uri, Cancelled) else r.workers[i])
    ensures res.0 == Ok(true) ==>
      && res.1.task == Some(|r.workers|) && |res.1.workers| == |r.workers| + 1
      && res.1.workers[|r.workers|] == Worker(u, Running)
      && res.1.notices == Released(r) + (if Busy(r) then [r.task.value] else [])
    ensures res.0.Err? ==> res.1.task == r.task && |res.1.workers| == |r.workers| && res.1.notices == Released(r)
    ensures r.packUri != Some(u) ==> res.1.blockedOn.None?
    ensures res.1.delivered == r.delivered
  {
    if r.packUri == Some(u) then (Ok(false), r)
    else if Busy(r) then
      var prev := r.task.value;
      var workers := r.workers[prev := Worker(r.workers[prev].uri, Cancelled)];
      assert forall k :: 0 <= k < |r.delivered| ==> workers[r.delivered[k].task] == r.workers[r.delivered[k].task];
      if onUiThread then
        (Err("CancellationException"), r.(packUri := Some(u), data := None, workers := workers, notices := Released(r), blockedOn := None))
      else (Ok(true), Start(r, u, workers, Released(r) + [prev]))
    else (Ok(true), Start(r, u, r.workers, r.notices))
  }

  /** Task `id` finishes in the background with whatever `Retrieve` yields;
      a task that has already ended (a cancelled one) finishes silently. If
      the UI thread is blocked in `get()` on this task, it resumes at once:
      a success becomes `data` and is passed to `onDataUpdated`, a failure
      throws out of the listener, and either way that notice is done. */
  function Complete(r: Retriever, id: nat, read: (Channel, Uri) -> Fetch<Data>): (r': Retriever)
    requires Valid(r)
    ensures Valid(r')
    ensures r'.packUri == r.packUri && r'.task == r.task
    ensures |r'.workers| == |r.workers|
    ensures id < |r.workers| && r.workers[id].status.Running? ==>
      && r'.workers == r.workers[id := Worker(r.workers[id].uri, r'.workers[id].status)]
      && r'.workers[id].status == (match Retrieve(r.workers[id].uri, read)
                                   case Ok(d) => Succeeded(d)
                                   case Err(m) => Failed(m))
    ensures id < |r.workers| && r.workers[id].status.Running? && r.blockedOn != Some(id) ==>
      r'.notices == r.notices + [id] && r'.blockedOn == r.blockedOn && r'.data == r.data && r'.delivered == r.delivered
    ensures r.blockedOn == Some(id) ==> r'.notices == r.notices[1..] + [id] && r'.blockedOn.None?
    ensures r.blockedOn == Some(id) && r'.workers[id].status.Succeeded? ==>
      var d := r'.workers[id].status.data;
      r'.data == Some(d) && r'.delivered == r.delivered + [Delivery(id, d)]
    ensures !(r.blockedOn == Some(id) && r'.workers[id].status.Succeeded?) ==>
      r'.data == r.data && r'.delivered == r.delivered
    ensures !(id < |r.workers| && r.workers[id].status.Running?) ==> r' == r
  {
    if id < |r.workers| && r.workers[id].status.Running? then
      var status := match Retrieve(r.workers[id].uri, read)
                    case Ok(d) => Succeeded(d)
                    case Err(m) => Failed(m);
      var workers := r.workers[id := Worker(r.workers[id].uri, status)];
      assert forall k :: 0 <= k < |r.delivered| ==> workers[r.delivered[k].task] == r.workers[r.delivered[k].task];
      if r.blockedOn != Some(id) then r.(workers := workers, notices := r.notices + [id])
      else
        var resumed := r.(workers := workers, notices := r.notices[1..] + [id], blockedOn := None);
        match Retrieve(r.workers[id].uri, read)
        case Ok(d) => resumed.(data := Some(d), delivered := r.delivered + [Delivery(id, d)])
        case Err(_) => resumed
    else r
  }

  /** The UI thread dispatches the oldest queued `DONE` notice to the
      listener as written: whichever task the notice is for, the listener
      reads the `task` FIELD. If that task is still running, `get()` blocks
      the UI thread on it (`blockedOn`), until it ends (`Complete`) or is
      cancelled (`Update`); if it failed or was cancelled, `get()` throws
      before `data` is assigned and nothing changes but the queue; otherwise
      its result becomes `data` and is passed to `onDataUpdated`. */
  function Dispatch(r: Retriever): (res: (Retriever, bool))
    requires Valid(r)
    ensures Valid(res.0)
    ensures res.0.packUri == r.packUri && res.0.task == r.task && res.0.workers == r.workers
    ensures r.notices == [] ==> res.0 == r
    ensures res.1 ==> res.0 == r.(blockedOn := r.task)
    ensures r.notices != [] && !res.1 ==> res.0.notices == r.notices[1..] && res.0.blockedOn.None?
    ensures res.1 <==> r.notices != [] && r.workers[r.task.value].status.Running?
    ensures r.notices != [] && r.workers[r.task.value].status.Succeeded? ==>
      var d := r.workers[r.task.value].status.data;
      res.0.delivered == r.delivered + [Delivery(r.task.value, d)] && res.0.data == Some(d)
    ensures !(r.notices != [] && r.workers[r.task.value].status.Succeeded?) ==>
      res.0.delivered == r.delivered && res.0.data == r.data
  {
    if r.notices == [] then (r, false)
    else
      var cur := r.task.value;
      match r.workers[cur].status
      case Running => (r.(blockedOn := Some(cur)), true)
      case Succeeded(d) =>
        (r.(data := Some(d), notices := r.notices[1..], delivered := r.delivered + [Delivery(cur, d)]), false)
      case Failed(_) => (r.(notices := r.notices[1..]), false)
      case Cancelled => (r.(notices := r.notices[1..]), false)
  }

  /** `update` from the UI thread or from another thread, a background task
      finishing, or the UI thread dispatching the oldest queued notice. */
  datatype Event = UpdateTo(uri: Uri, onUiThread: bool) | Finish(id: nat) | Deliver

  /** Which `DONE` listener runs: the one as written, which reads the `task`
      field, or the corrected one, which acts on its own task. */
  datatype Listener = AsWritten | OwnNotice

  function Step(l: Listener, r: Retriever, e: Event, read: (Channel, Uri) -> Fetch<Data>): (r': Retriever)
    requires Valid(r)
    ensures Valid(r')
  {
    match e
    case UpdateTo(u, ui) => if l == AsWritten then Update(r, u, ui).1 else UpdateOwn(r, u, ui).1
    case Finish(id) => Complete(r, id, read)
    case Deliver => if l == AsWritten then Dispatch(r).0 else DispatchOwn(r)
  }

  /** Runs `events` in order. */
  function Run(l: Listener, r: Retriever, events: seq<Event>, read: (Channel, Uri) -> Fetch<Data>): (r': Retriever)
    requires Valid(r)
    ensures Valid(r')
    decreases |events|
  {
    if events == [] then r
    else Run(l, Step(l, r, events[0], read), events[1..], read)
  }

  /** Running one event, then the rest. */
  lemma RunCons(l: Listener, r: Retriever, e: Event, rest: seq<Event>, read: (Channel, Uri) -> Fetch<Data>)
    requires Valid(r)
    ensures Run(l, r, [e] + rest, read) == Run(l, Step(l, r, e, read), rest, read)
  {
    assert ([e] + rest)[1..] == rest;
  }

  /** Two events, one step at a time. */
  lemma RunTwo(l: Listener, r: Retriever, e1: Event, e2: Event, read: (Channel, Uri) -> Fetch<Data>)
    requires Valid(r)
    ensures Run(l, r, [e1, e2], read) == Step(l, Step(l, r, e1, read), e2, read)
  {
    RunCons(l, Step(l, r, e1, read), e2, [], read);
    RunCons(l, r, e1, [e2], read);
    assert [e1, e2] == [e1] + [e2];
    assert [e2] == [e2] + [];
  }

  /** Five events as two and then three. */
  lemma SplitFive(l: Listener, r: Retriever, e1: Event, e2: Event, e3: Event, e4: Event, e5: Event,
                  read: (Channel, Uri) -> Fetch<Data>)
    requires Valid(r)
    ensures Run(l, r, [e1, e2, e3, e4, e5], read) == Run(l, Run(l, r, [e1, e2], read), [e3, e4, e5], read)
  {
    RunConcat(l, r, [e1, e2], [e3, e4, e5], read);
    assert [e1, e2, e3, e4, e5] == [e1, e2] + [e3, e4, e5];
  }

  /** No stale overwrite: after any sequence of events, `getData()` is empty
      or the result of the task for the URI last passed to `update`, and
      every value ever passed to `onDataUpdated` is some task's successful
      result. */
  lemma NoStaleData(events: seq<Event>, read: (Channel, Uri) -> Fetch<Data>)
    ensures var r := Run(AsWritten, Init, events, read);
      && (r.data.Some? ==>
            r.workers != [] && r.workers[|r.workers| - 1].status == Succeeded(r.data.value) &&
            Some(r.workers[|r.workers| - 1].uri) == r.packUri)
      && (forall k :: 0 <= k < |r.delivered| ==>
            r.workers[r.delivered[k].task].status == Succeeded(r.delivered[k].data))
  {
    ValidHasNoStaleData(Run(AsWritten, Init, events, read));
  }

  /** The field invariant alone rules out stale data. */
  lemma ValidHasNoStaleData(r: Retriever)
    requires Valid(r)
    ensures r.data.Some? ==>
      r.workers != [] && r.workers[|r.workers| - 1].status == Succeeded(r.data.value) &&
      Some(r.workers[|r.workers| - 1].uri) == r.packUri
  {
  }

  /** Task 0 for `a` cancelled, task 1 for `b` in state `second`. */
  function Replaced(a: Uri, b: Uri, second: Status, notices: seq<nat>): Retriever {
    Retriever(Some(b), None, Some(1), [Worker(a, Cancelled), Worker(b, second)], notices, None, [])
  }

  /** Two timer-thread updates to different URIs: the first task is
      cancelled with its notice queued, and the second runs. */
  lemma ReplacedOnTimer(l: Listener, a: Uri, b: Uri, read: (Channel, Uri) -> Fetch<Data>)
    requires a != b
    ensures Step(l, Step(l, Init, UpdateTo(a, false), read), UpdateTo(b, false), read) == Replaced(a, b, Running, [0])
  {
    var r1 := Step(l, Init, UpdateTo(a, false), read);
    assert r1 == Retriever(Some(a), None, Some(0), [Worker(a, Running)], [], None, []);
  }

  /** The second task finishing with `d` queues its notice. */
  lemma SecondSucceeds(l: Listener, a: Uri, b: Uri, d: Data, notices: seq<nat>, read: (Channel, Uri) -> Fetch<Data>)
    requires Retrieve(b, read) == Ok(d)
    requires forall k :: 0 <= k < |notices| ==> notices[k] == 0
    ensures Valid(Replaced(a, b, Running, notices))
    ensures Step(l, Replaced(a, b, Running, notices), Finish(1), read) == Replaced(a, b, Succeeded(d), notices + [1])
  {
  }

  /** Two timer-thread updates, run as events. */
  lemma TimerHead(l: Listener, a: Uri, b: Uri, read: (Channel, Uri) -> Fetch<Data>)
    requires a != b
    ensures Run(l, Init, [UpdateTo(a, false), UpdateTo(b, false)], read) == Replaced(a, b, Running, [0])
  {
    RunTwo(l, Init, UpdateTo(a, false), UpdateTo(b, false), read);
    ReplacedOnTimer(l, a, b, read);
  }

  /** The second task succeeds, and both notices read it and deliver. */
  lemma DuplicateTail(a: Uri, b: Uri, d: Data, read: (Channel, Uri) -> Fetch<Data>)
    requires Retrieve(b, read) == Ok(d)
    ensures Valid(Replaced(a, b, Running, [0]))
    ensures Run(AsWritten, Replaced(a, b, Running, [0]), [Finish(1), Deliver, Deliver], read).delivered
      == [Delivery(1, d), Delivery(1, d)]
  {
    var l := AsWritten;
    SecondSucceeds(l, a, b, d, [0], read);
    var r2 := Replaced(a, b, Running, [0]);
    var r3 := Replaced(a, b, Succeeded(d), [0, 1]);
    var r4 := Step(l, r3, Deliver, read);
    assert r4 == r3.(data := Some(d), notices := [1], delivered := [Delivery(1, d)]);
    var r5 := Step(l, r4, Deliver, read);
    assert r5.delivered == [Delivery(1, d), Delivery(1, d)];
    RunCons(l, r4, Deliver, [], read);
    RunCons(l, r3, Deliver, [Deliver], read);
    RunCons(l, r2, Finish(1), [Deliver, Deliver], read);
  }

  /** Replacing a running task from the debouncer's timer thread: the URI
      changes, the first task is cancelled, the second succeeds, and the UI
      thread dispatches both `DONE` notices. The cancelled task's notice makes
      the listener read the new task, so `onDataUpdated` runs twice with the
      same data. */
  lemma DuplicateDelivery(a: Uri, b: Uri, d: Data, read: (Channel, Uri) -> Fetch<Data>)
    requires a != b && Retrieve(b, read) == Ok(d)
    ensures Run(AsWritten, Init, [UpdateTo(a, false), UpdateTo(b, false), Finish(1), Deliver, Deliver], read).delivered
      == [Delivery(1, d), Delivery(1, d)]
  {
    SplitFive(AsWritten, Init, UpdateTo(a, false), UpdateTo(b, false), Finish(1), Deliver, Deliver, read);
    TimerHead(AsWritten, a, b, read);
    DuplicateTail(a, b, d, read);
  }

  /** Tasks for `a` and `b` cancelled, the one for `c` in state `third`;
      the notice of `b`'s task is queued ahead of `later`. */
  function ReplacedTwice(a: Uri, b: Uri, c: Uri, third: Status, later: seq<nat>, delivered: seq<Delivery>): Retriever {
    Retriever(Some(c), None, Some(2), [Worker(a, Cancelled), Worker(b, Cancelled), Worker(c, third)], [1] + later, None, delivered)
  }

  /** The UI thread blocks in `get()` on `b`'s task for the first notice;
      a timer-thread `update(c)` cancels that task, so the blocked `get()`
      throws and the first notice is done without a delivery. */
  lemma BlockedThenCancelled(a: Uri, b: Uri, c: Uri, read: (Channel, Uri) -> Fetch<Data>)
    requires a != b && b != c
    ensures var r3 := Step(AsWritten, Replaced(a, b, Running, [0]), Deliver, read);
      && r3 == Replaced(a, b, Running, [0]).(blockedOn := Some(1))
      && Step(AsWritten, r3, UpdateTo(c, false), read) == ReplacedTwice(a, b, c, Running, [], [])
  {
  }

  /** Running `xs` and then `ys`. */
  lemma {:induction false} RunConcat(l: Listener, r: Retriever, xs: seq<Event>, ys: seq<Event>, read: (Channel, Uri) -> Fetch<Data>)
    requires Valid(r)
    ensures Run(l, r, xs + ys, read) == Run(l, Run(l, r, xs, read), ys, read)
    decreases |xs|
  {
    if xs != [] {
      assert (xs + ys)[1..] == xs[1..] + ys;
      RunConcat(l, Step(l, r, xs[0], read), xs[1..], ys, read);
    } else {
      assert xs + ys == ys;
    }
  }

  /** `c`'s task succeeding queues its notice behind `b`'s. */
  lemma ThirdSucceeds(a: Uri, b: Uri, c: Uri, d: Data, read: (Channel, Uri) -> Fetch<Data>)
    requires Retrieve(c, read) == Ok(d)
    ensures Step(AsWritten, ReplacedTwice(a, b, c, Running, [], []), Finish(2), read)
      == ReplacedTwice(a, b, c, Succeeded(d), [2], [])
  {
  }

  /** Both queued notices read `c`'s task and deliver its data; the third
      dispatch finds the queue empty. */
  lemma ThreeDispatches(a: Uri, b: Uri, c: Uri, d: Data, read: (Channel, Uri) -> Fetch<Data>)
    ensures Valid(ReplacedTwice(a, b, c, Succeeded(d), [2], []))
    ensures Run(AsWritten, ReplacedTwice(a, b, c, Succeeded(d), [2], []), [Deliver, Deliver, Deliver], read).delivered
      == [Delivery(2, d), Delivery(2, d)]
  {
    var l := AsWritten;
    var r5 := ReplacedTwice(a, b, c, Succeeded(d), [2], []);
    var r6 := Step(l, r5, Deliver, read);
    assert r6 == r5.(data := Some(d), notices := [2], delivered := [Delivery(2, d)]);
    var r7 := Step(l, r6, Deliver, read);
    assert r7 == r6.(notices := [], delivered := [Delivery(2, d), Delivery(2, d)]);
    RunCons(l, r7, Deliver, [], read);
    RunCons(l, r6, Deliver, [Deliver], read);
    RunCons(l, r5, Deliver, [Deliver, Deliver], read);
  }

  /** A blocked dispatch, `update(c)` and `c`'s task succeeding. */
  lemma BlockedMiddle(a: Uri, b: Uri, c: Uri, d: Data, read: (Channel, Uri) -> Fetch<Data>)
    requires a != b && b != c && Retrieve(c, read) == Ok(d)
    ensures Valid(Replaced(a, b, Running, [0]))
    ensures Run(AsWritten, Replaced(a, b, Running, [0]), [Deliver, UpdateTo(c, false), Finish(2)], read)
      == ReplacedTwice(a, b, c, Succeeded(d), [2], [])
  {
    var l := AsWritten;
    var r2 := Replaced(a, b, Running, [0]);
    BlockedThenCancelled(a, b, c, read);
    ThirdSucceeds(a, b, c, d, read);
    var r3 := Step(l, r2, Deliver, read);
    var r4 := ReplacedTwice(a, b, c, Running, [], []);
    RunCons(l, r4, Finish(2), [], read);
    RunCons(l, r3, UpdateTo(c, false), [Finish(2)], read);
    RunCons(l, r2, Deliver, [UpdateTo(c, false), Finish(2)], read);
  }

  /** The first five events of `CancelledWhileBlocked`: both notices of
      the cancelled tasks are queued, `b`'s ahead of `c`'s, and `c`'s task
      has succeeded. */
  lemma BlockedRunHead(a: Uri, b: Uri, c: Uri, d: Data, read: (Channel, Uri) -> Fetch<Data>)
    requires a != b && b != c && Retrieve(c, read) == Ok(d)
    ensures Run(AsWritten, Init, [UpdateTo(a, false), UpdateTo(b, false), Deliver, UpdateTo(c, false), Finish(2)], read)
      == ReplacedTwice(a, b, c, Succeeded(d), [2], [])
  {
    SplitFive(AsWritten, Init, UpdateTo(a, false), UpdateTo(b, false), Deliver, UpdateTo(c, false), Finish(2), read);
    TimerHead(AsWritten, a, b, read);
    BlockedMiddle(a, b, c, d, read);
  }

  /** A dispatch blocked on a task that a timer-thread `update` then
      cancels ends without a delivery: after `update(a)`, `update(b)`, a
      blocked dispatch, `update(c)` and `c`'s task succeeding, three
      dispatches call `onDataUpdated` twice, once for each notice still
      queued. */
  lemma CancelledWhileBlocked(a: Uri, b: Uri, c: Uri, d: Data, read: (Channel, Uri) -> Fetch<Data>)
    requires a != b && b != c && Retrieve(c, read) == Ok(d)
    ensures Run(AsWritten, Init,
                [UpdateTo(a, false), UpdateTo(b, false), Deliver, UpdateTo(c, false), Finish(2), Deliver, Deliver, Deliver],
                read).delivered
      == [Delivery(2, d), Delivery(2, d)]
  {
    var head := [UpdateTo(a, false), UpdateTo(b, false), Deliver, UpdateTo(c, false), Finish(2)];
    var tail := [Deliver, Deliver, Deliver];
    assert head + tail
      == [UpdateTo(a, false), UpdateTo(b, false), Deliver, UpdateTo(c, false), Finish(2), Deliver, Deliver, Deliver];
    BlockedRunHead(a, b, c, d, read);
    ThreeDispatches(a, b, c, d, read);
    RunConcat(AsWritten, Init, head, tail, read);
  }

  /** No `update` among the events. */
  predicate NoUpdates(events: seq<Event>) {
    forall k :: 0 <= k < |events| ==> !events[k].UpdateTo?
  }

  /** A retriever whose current task was cancelled by a throwing `update`
      never delivers anything until `update` is called again. */
  lemma {:induction false} StrandedStaysSilent(r: Retriever, events: seq<Event>, read: (Channel, Uri) -> Fetch<Data>)
    requires Valid(r) && r.workers != [] && r.workers[|r.workers| - 1].status.Cancelled? && r.data.None?
    requires NoUpdates(events)
    ensures Run(AsWritten, r, events, read).delivered == r.delivered
    ensures Run(AsWritten, r, events, read).data.None?
    decreases |events|
  {
    if events != [] {
      var r' := Step(AsWritten, r, events[0], read);
      assert r'.workers == r.workers && r'.delivered == r.delivered && r'.data.None?;
      assert NoUpdates(events[1..]) by {
        forall k | 0 <= k < |events[1..]| ensures !events[1..][k].UpdateTo? {
          assert events[1..][k] == events[k + 1];
        }
      }
      StrandedStaysSilent(r', events[1..], read);
    }
  }

  /** A paste while the debouncer's fetch is still running: the paste's
      `update` on the UI thread throws, the pasted URI is adopted but no
      task fetches it, asking for that URI again is answered false, and
      until another URI is given nothing is delivered. */
  lemma PasteDuringFetchStrands(a: Uri, b: Uri, events: seq<Event>, read: (Channel, Uri) -> Fetch<Data>)
    requires a != b && NoUpdates(events)
    ensures var (outcome, r) := Update(Update(Init, a, false).1, b, true);
      && outcome == Err("CancellationException")
      && r.packUri == Some(b) && r.data.None?
      && (forall i :: 0 <= i < |r.workers| ==> r.workers[i].uri != b)
      && Update(r, b, true) == (Ok(false), r) && Update(r, b, false) == (Ok(false), r)
      && Run(AsWritten, r, events, read).delivered == []
  {
    var r := Update(Update(Init, a, false).1, b, true).1;
    assert r.workers == [Worker(a, Cancelled)];
    StrandedStaysSilent(r, events, read);
  }

  /** The stranded retriever recovers once a different URI arrives: the
      cancelled task is no longer running, so `update(c)` from either thread
      answers true and starts a task for `c`. */
  lemma StrandedRecovers(a: Uri, b: Uri, c: Uri, onUiThread: bool)
    requires a != b && c != b
    ensures var r := Update(Update(Init, a, false).1, b, true).1;
      var (outcome, r') := Update(r, c, onUiThread);
      && outcome == Ok(true) && r'.packUri == Some(c)
      && r'.workers == [Worker(a, Cancelled), Worker(c, Running)] && r'.task == Some(1)
  {
    var r := Update(Update(Init, a, false).1, b, true).1;
    assert r.workers == [Worker(a, Cancelled)] && !Busy(r);
  }

  /** `update` with the corrected listener, which acts on its own task: on
      the UI thread the cancelled task's listener runs at once and drops its
      notice; off it the notice is queued and dropped when dispatched. Either
      way a new URI starts a new task. */
  function UpdateOwn(r: Retriever, u: Uri, onUiThread: bool): (res: (bool, Retriever))
    requires Valid(r)
    ensures Valid(res.1)
    ensures res.0 <==> r.packUri != Some(u)
    ensures !res.0 ==> res.1 == r
    ensures res.0 ==>
      && res.1.packUri == Some(u) && res.1.data.None?
      && res.1.task == Some(|r.workers|) && |res.1.workers| == |r.workers| + 1
      && res.1.workers[|r.workers|] == Worker(u, Running)
      && res.1.notices == Released(r) + (if Busy(r) && !onUiThread then [r.task.value] else [])
    ensures res.0 ==> forall i :: 0 <= i < |r.workers| ==>
      res.1.workers[i] == (if r.workers[i].status.Running? then Worker(r.workers[i].uri, Cancelled) else r.workers[i])
    ensures res.1.delivered == r.delivered
  {
    if r.packUri == Some(u) then (false, r)
    else if Busy(r) then
      var prev := r.task.value;
      var workers := r.workers[prev := Worker(r.workers[prev].uri, Cancelled)];
      assert forall k :: 0 <= k < |r.delivered| ==> workers[r.delivered[k].task] == r.workers[r.delivered[k].task];
      (true, Start(r, u, workers, if onUiThread then Released(r) else Released(r) + [prev]))
    else (true, Start(r, u, r.workers, r.notices))
  }

  /** The corrected `update` differs from the one as written only where that
      one throws, and there it starts the task the one as written never
      starts. */
  lemma UpdateOwnAgrees(r: Retriever, u: Uri, onUiThread: bool)
    requires Valid(r)
    ensures Update(r, u, onUiThread).0.Ok? ==>
      Update(r, u, onUiThread) == (Ok(UpdateOwn(r, u, onUiThread).0), UpdateOwn(r, u, onUiThread).1)
    ensures Update(r, u, onUiThread).0.Err? ==>
      onUiThread && UpdateOwn(r, u, onUiThread).0 && UpdateOwn(r, u, onUiThread).1.workers[|r.workers|] == Worker(u, Running)
  {
  }

  /** The listener as evidently intended: it acts only on the notice of the
      current task, and only when that task succeeded; notices of superseded
      or failed tasks are dropped. It never blocks itself, and while the UI
      thread is blocked by the listener as written it dispatches nothing. */
  function DispatchOwn(r: Retriever): (res: Retriever)
    requires Valid(r)
    ensures Valid(res)
    ensures res.packUri == r.packUri && res.task == r.task && res.workers == r.workers
    ensures r.notices == [] || r.blockedOn.Some? ==> res == r
    ensures r.notices != [] && r.blockedOn.None? ==> res.notices == r.notices[1..] && res.blockedOn.None?
    ensures |res.delivered| > |r.delivered| <==>
      r.notices != [] && r.blockedOn.None? && Some(r.notices[0]) == r.task && r.workers[r.notices[0]].status.Succeeded?
    ensures r.notices != [] && r.blockedOn.None? && Some(r.notices[0]) == r.task && r.workers[r.notices[0]].status.Succeeded? ==>
      var d := r.workers[r.notices[0]].status.data;
      res.delivered == r.delivered + [Delivery(r.notices[0], d)] && res.data == Some(d)
    ensures !(r.notices != [] && r.blockedOn.None? && Some(r.notices[0]) == r.task && r.workers[r.notices[0]].status.Succeeded?) ==>
      res.delivered == r.delivered && res.data == r.data
  {
    if r.notices == [] || r.blockedOn.Some? then r
    else
      var id := r.notices[0];
      if Some(id) == r.task && r.workers[id].status.Succeeded? then
        var d := r.workers[id].status.data;
        r.(data := Some(d), notices := r.notices[1..], delivered := r.delivered + [Delivery(id, d)])
      else r.(notices := r.notices[1..])
  }

  /** Exactly-once bookkeeping: no task has two notices, and a task with a
      pending notice has not been delivered yet. */
  predicate OnceValid(r: Retriever) {
    && Valid(r)
    && r.blockedOn.None?
    && (forall j, k :: 0 <= j < k < |r.notices| ==> r.notices[j] != r.notices[k])
    && (forall j, k :: 0 <= j < k < |r.delivered| ==> r.delivered[j].task != r.delivered[k].task)
    && (forall j, k :: 0 <= j < |r.notices| && 0 <= k < |r.delivered| ==> r.notices[j] != r.delivered[k].task)
    && (forall i :: 0 <= i < |r.workers| && r.workers[i].status.Running? ==>
          i !in r.notices && forall k :: 0 <= k < |r.delivered| ==> r.delivered[k].task != i)
  }

  lemma UpdateOnce(r: Retriever, u: Uri, onUiThread: bool)
    requires OnceValid(r)
    ensures OnceValid(UpdateOwn(r, u, onUiThread).1)
  {
  }

  lemma CompleteOnce(r: Retriever, id: nat, read: (Channel, Uri) -> Fetch<Data>)
    requires OnceValid(r)
    ensures OnceValid(Complete(r, id, read))
  {
  }

  lemma DispatchOwnOnce(r: Retriever)
    requires OnceValid(r)
    ensures OnceValid(DispatchOwn(r))
  {
  }

  lemma StepOwnOnce(r: Retriever, e: Event, read: (Channel, Uri) -> Fetch<Data>)
    requires OnceValid(r)
    ensures OnceValid(Step(OwnNotice, r, e, read))
  {
    match e {
      case UpdateTo(u, ui) => UpdateOnce(r, u, ui);
      case Finish(id) => CompleteOnce(r, id, read);
      case Deliver => DispatchOwnOnce(r);
    }
  }

  lemma {:induction false} RunOwnOnce(r: Retriever, events: seq<Event>, read: (Channel, Uri) -> Fetch<Data>)
    requires OnceValid(r)
    ensures OnceValid(Run(OwnNotice, r, events, read))
    decreases |events|
  {
    if events != [] {
      StepOwnOnce(r, events[0], read);
      RunOwnOnce(Step(OwnNotice, r, events[0], read), events[1..], read);
    }
  }

  /** With the corrected listener, `onDataUpdated` runs at most once per
      task, only with that task's own successful result. */
  lemma AtMostOncePerTask(events: seq<Event>, read: (Channel, Uri) -> Fetch<Data>)
    ensures var r := Run(OwnNotice, Init, events, read);
      && (forall j, k :: 0 <= j < k < |r.delivered| ==> r.delivered[j].task != r.delivered[k].task)
      && (forall k :: 0 <= k < |r.delivered| ==> r.workers[r.delivered[k].task].status == Succeeded(r.delivered[k].data))
  {
    RunOwnOnce(Init, events, read);
  }

  /** With the corrected listener the timer-thread replacement scenario
      delivers the new task's data once. */
  lemma ReplacementDeliveredOnce(a: Uri, b: Uri, d: Data, read: (Channel, Uri) -> Fetch<Data>)
    requires a != b && Retrieve(b, read) == Ok(d)
    ensures Run(OwnNotice, Init, [UpdateTo(a, false), UpdateTo(b, false), Finish(1), Deliver, Deliver], read).delivered
      == [Delivery(1, d)]
  {
    SplitFive(OwnNotice, Init, UpdateTo(a, false), UpdateTo(b, false), Finish(1), Deliver, Deliver, read);
    TimerHead(OwnNotice, a, b, read);
    ReplacementTail(a, b, d, read);
  }

  /** The corrected listener drops the cancelled task's notice, then
      delivers the second task's. */
  lemma OwnDropsThenDelivers(a: Uri, b: Uri, d: Data, read: (Channel, Uri) -> Fetch<Data>)
    ensures Valid(Replaced(a, b, Succeeded(d), [0, 1]))
    ensures Step(OwnNotice, Replaced(a, b, Succeeded(d), [0, 1]), Deliver, read) == Replaced(a, b, Succeeded(d), [1])
    ensures Step(OwnNotice, Replaced(a, b, Succeeded(d), [1]), Deliver, read).delivered == [Delivery(1, d)]
  {
  }

  /** With the corrected listener, the cancelled task's notice is dropped
      and the second task's delivers. */
  lemma ReplacementTail(a: Uri, b: Uri, d: Data, read: (Channel, Uri) -> Fetch<Data>)
    requires Retrieve(b, read) == Ok(d)
    ensures Valid(Replaced(a, b, Running, [0]))
    ensures Run(OwnNotice, Replaced(a, b, Running, [0]), [Finish(1), Deliver, Deliver], read).delivered
      == [Delivery(1, d)]
  {
    var l := OwnNotice;
    SecondSucceeds(l, a, b, d, [0], read);
    var r2 := Replaced(a, b, Running, [0]);
    var r3 := Replaced(a, b, Succeeded(d), [0, 1]);
    OwnDropsThenDelivers(a, b, d, read);
    var r4 := r3.(notices := [1]);
    RunCons(l, r4, Deliver, [], read);
    RunCons(l, r3, Deliver, [Deliver], read);
    RunCons(l, r2, Finish(1), [Deliver, Deliver], read);
  }

  /** With the corrected listener, the cancelled task finishing changes
      nothing, and the second task's notice delivers. */
  lemma PasteTail(a: Uri, b: Uri, d: Data, read: (Channel, Uri) -> Fetch<Data>)
    requires Retrieve(b, read) == Ok(d)
    ensures Valid(Replaced(a, b, Running, []))
    ensures Run(OwnNotice, Replaced(a, b, Running, []), [Finish(0), Finish(1), Deliver], read).delivered
      == [Delivery(1, d)]
  {
    var l := OwnNotice;
    SecondSucceeds(l, a, b, d, [], read);
    var r2 := Replaced(a, b, Running, []);
    assert Step(l, r2, Finish(0), read) == r2;
    var r4 := Replaced(a, b, Succeeded(d), [1]);
    var r5 := Step(l, r4, Deliver, read);
    assert r5.delivered == [Delivery(1, d)];
    RunCons(l, r4, Deliver, [], read);
    RunCons(l, r2, Finish(1), [Deliver], read);
    RunCons(l, r2, Finish(0), [Finish(1), Deliver], read);
  }

  /** With the corrected listener a paste during a running fetch starts a
      task for the pasted URI, and its data is delivered once; the cancelled
      task finishing later changes nothing. */
  lemma PasteDuringFetchDeliveredOnce(a: Uri, b: Uri, d: Data, read: (Channel, Uri) -> Fetch<Data>)
    requires a != b && Retrieve(b, read) == Ok(d)
    ensures Run(OwnNotice, Init, [UpdateTo(a, false), UpdateTo(b, true), Finish(0), Finish(1), Deliver], read).delivered
      == [Delivery(1, d)]
  {
    SplitFive(OwnNotice, Init, UpdateTo(a, false), UpdateTo(b, true), Finish(0), Finish(1), Deliver, read);
    RunTwo(OwnNotice, Init, UpdateTo(a, false), UpdateTo(b, true), read);
    ReplacedOnUiThread(a, b, read);
    PasteTail(a, b, d, read);
  }

  /** A timer-thread update, then a UI-thread one with the corrected
      listener: the first task is cancelled and its notice dropped at once,
      and the second runs. */
  lemma ReplacedOnUiThread(a: Uri, b: Uri, read: (Channel, Uri) -> Fetch<Data>)
    requires a != b
    ensures Step(OwnNotice, Step(OwnNotice, Init, UpdateTo(a, false), read), UpdateTo(b, true), read)
      == Replaced(a, b, Running, [])
  {
    var r1 := Step(OwnNotice, Init, UpdateTo(a, false), read);
    assert r1 == Retriever(Some(a), None, Some(0), [Worker(a, Running)], [], None, []);
  }
}
