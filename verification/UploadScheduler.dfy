/** The upload queue of the drop zone: which files upload when. */
module UploadScheduler {
  import opened Wrappers

  type FileId = nat
  type XhrId = nat

  datatype Status = ADDED | QUEUED | UPLOADING | CANCELED | ERROR | SUCCESS

  datatype File = File(status: Status, accepted: bool, xhr: Option<XhrId>)

  type Files = map<FileId, File>

  function StatusOf(info: Files, f: FileId): Option<Status> {
    if f in info then Some(info[f].status) else None
  }

  predicate Final(status: Status) {
    status == CANCELED || status == ERROR || status == SUCCESS
  }

  function Rank(status: Status): nat {
    match status
    case ADDED => 0
    case QUEUED => 1
    case UPLOADING => 2
    case _ => 3
  }

  /** No status moves backwards and final statuses stay. */
  ghost predicate Progress(before: Files, after: Files) {
    forall f | f in before ::
      f in after && Rank(before[f].status) <= Rank(after[f].status)
      && (Final(before[f].status) ==> after[f].status == before[f].status)
  }

  lemma ProgressTransitive(a: Files, b: Files, c: Files)
    requires Progress(a, b) && Progress(b, c)
    ensures Progress(a, c)
  {}

  lemma ProgressReflexive(a: Files)
    ensures Progress(a, a)
  {}

  // ----- lists of files -----

  ghost predicate Distinct(files: seq<FileId>) {
    forall i, j | 0 <= i < j < |files| :: files[i] != files[j]
  }

  /** The listed files with a status, in list order. */
  function WithStatus(files: seq<FileId>, info: Files, status: Status): seq<FileId> {
    if files == [] then []
    else
      var f := files[|files| - 1];
      WithStatus(files[..|files| - 1], info, status) + if StatusOf(info, f) == Some(status) then [f] else []
  }

  lemma {:induction false} WithStatusMembers(files: seq<FileId>, info: Files, status: Status)
    ensures forall f :: f in WithStatus(files, info, status) <==> f in files && StatusOf(info, f) == Some(status)
    ensures Distinct(files) ==> Distinct(WithStatus(files, info, status))
  {
    if files != [] {
      var front, last := files[..|files| - 1], files[|files| - 1];
      WithStatusMembers(front, info, status);
      assert files == front + [last];
      if Distinct(files) {
        assert last !in front;
      }
    }
  }

  /** x stands before y in the list. */
  ghost predicate Before(files: seq<FileId>, x: FileId, y: FileId) {
    exists p, q :: 0 <= p < q < |files| && files[p] == x && files[q] == y
  }

  /** The files of `part` stand in the list in the same order. */
  ghost predicate InListOrder(files: seq<FileId>, part: seq<FileId>) {
    forall a, b | 0 <= a < b < |part| :: Before(files, part[a], part[b])
  }

  lemma BeforeExtends(files: seq<FileId>, x: FileId, y: FileId)
    ensures x in files ==> Before(files + [y], x, y)
    ensures forall f | Before(files, x, y) :: Before(files + [f], x, y)
  {
    if x in files {
      var p :| 0 <= p < |files| && files[p] == x;
      assert (files + [y])[p] == x && (files + [y])[|files|] == y;
    }
    forall f | Before(files, x, y) ensures Before(files + [f], x, y) {
      var p, q :| 0 <= p < q < |files| && files[p] == x && files[q] == y;
      assert (files + [f])[p] == x && (files + [f])[q] == y;
    }
  }

  lemma OrderExtends(files: seq<FileId>, part: seq<FileId>, f: FileId)
    requires InListOrder(files, part) && forall g | g in part :: g in files
    ensures InListOrder(files + [f], part) && InListOrder(files + [f], part + [f])
  {
    hide Before;
    forall a, b | 0 <= a < b < |part| ensures Before(files + [f], part[a], part[b]) {
      BeforeExtends(files, part[a], part[b]);
    }
    forall a | 0 <= a < |part| ensures Before(files + [f], part[a], f) {
      assert part[a] in part;
      BeforeExtends(files, part[a], f);
    }
  }

  /** Files are found in list order. */
  lemma {:induction false} WithStatusOrder(files: seq<FileId>, info: Files, status: Status)
    ensures InListOrder(files, WithStatus(files, info, status))
  {
    hide InListOrder;
    if files == [] {
      NoneInOrder(files);
    } else {
      var front, last := files[..|files| - 1], files[|files| - 1];
      assert files == front + [last];
      WithStatusOrder(front, info, status);
      WithStatusMembers(front, info, status);
      OrderExtends(front, WithStatus(front, info, status), last);
      assert WithStatus(front, info, status) + [] == WithStatus(front, info, status);
    }
  }

  lemma NoneInOrder(files: seq<FileId>)
    ensures InListOrder(files, [])
  {}

  /** Whoever has started stands in the list before everyone still waiting. */
  ghost predicate FirstComeFirstServed(files: seq<FileId>, before: Files, after: Files) {
    forall p, q | 0 <= p < |files| && 0 <= q < |files| ::
      (StatusOf(before, files[p]) == Some(QUEUED) && StatusOf(after, files[p]) == Some(UPLOADING)
       && StatusOf(after, files[q]) == Some(QUEUED)) ==> p < q
  }

  /** The listed files that wait. */
  ghost function Waiting(files: seq<FileId>, info: Files): set<FileId> {
    set f | f in files && StatusOf(info, f) == Some(QUEUED)
  }

  lemma {:induction false} DistinctSize(files: seq<FileId>, s: set<FileId>)
    requires Distinct(files) && forall f :: f in files <==> f in s
    ensures |files| == |s|
  {
    if files == [] {
      assert s == {};
    } else {
      var front, last := files[..|files| - 1], files[|files| - 1];
      assert files == front + [last];
      assert last !in front;
      DistinctSize(front, s - {last});
    }
  }

  function Least(a: int, b: int): int {
    if a < b then a else b
  }

  /** The given files start uploading under one request. */
  ghost function Started(info: Files, list: seq<FileId>, x: XhrId): Files {
    map f | f in info :: if f in list then File(UPLOADING, info[f].accepted, Some(x)) else info[f]
  }

  /** The given files end with one status. */
  ghost function Ended(info: Files, list: seq<FileId>, status: Status): Files {
    map f | f in info :: if f in list then info[f].(status := status) else info[f]
  }

  ghost function Uploading(info: Files): set<FileId> {
    set f | f in info && info[f].status == UPLOADING
  }

  type Requests = map<XhrId, seq<FileId>>

  ghost predicate ListOk(files: seq<FileId>, info: Files) {
    Distinct(files) && forall f | f in files :: f in info
  }

  /** An uploading file is listed and waits for a callback. */
  ghost predicate UploadsOk(files: seq<FileId>, info: Files, pending: Requests) {
    forall f | f in info && info[f].status == UPLOADING ::
      f in files && info[f].xhr.Some? && info[f].xhr.value in pending
  }

  ghost predicate RequestsOk(pending: Requests, nextXhr: XhrId) {
    forall x | x in pending :: x < nextXhr && pending[x] != []
  }

  /** A file knows its request, and only once it has started. */
  ghost predicate LinksOk(info: Files, pending: Requests, nextXhr: XhrId) {
    forall f | f in info && info[f].xhr.Some? ::
      Rank(info[f].status) >= 2 && info[f].xhr.value < nextXhr
      && (info[f].xhr.value in pending ==> f in pending[info[f].xhr.value])
  }

  /** The files of a request upload together or have been cancelled together. */
  ghost predicate GroupsOk(info: Files, pending: Requests) {
    && (forall x, f | x in pending && f in pending[x] :: f in info && info[f].xhr == Some(x))
    && (forall x | x in pending ::
          (forall f | f in pending[x] :: StatusOf(info, f) == Some(UPLOADING))
          || (forall f | f in pending[x] :: StatusOf(info, f) == Some(CANCELED)))
  }

  ghost predicate Linked(files: seq<FileId>, info: Files, pending: Requests, nextXhr: XhrId) {
    && ListOk(files, info) && UploadsOk(files, info, pending) && RequestsOk(pending, nextXhr)
    && LinksOk(info, pending, nextXhr) && GroupsOk(info, pending)
  }

  // ----- transitions -----

  lemma StartKeepsGroups(info: Files, pending: Requests, nextXhr: XhrId, list: seq<FileId>)
    requires LinksOk(info, pending, nextXhr) && GroupsOk(info, pending)
    requires forall f | f in list :: f in info && info[f].status == QUEUED
    ensures GroupsOk(Started(info, list, nextXhr), pending[nextXhr := list])
  {
    var after, requests := Started(info, list, nextXhr), pending[nextXhr := list];
    forall x | x in pending && x != nextXhr
      ensures (forall f | f in requests[x] :: StatusOf(after, f) == StatusOf(info, f))
    {
      forall f | f in pending[x] ensures f !in list {
        assert info[f].xhr == Some(x);
      }
    }
  }

  lemma StartKeepsLinked(files: seq<FileId>, info: Files, pending: Requests, nextXhr: XhrId, list: seq<FileId>)
    requires Linked(files, info, pending, nextXhr)
    requires list != [] && forall f | f in list :: f in files && info[f].status == QUEUED
    ensures Linked(files, Started(info, list, nextXhr), pending[nextXhr := list], nextXhr + 1)
    ensures Progress(info, Started(info, list, nextXhr))
  {
    StartKeepsGroups(info, pending, nextXhr, list);
    hide GroupsOk, Distinct;
  }

  lemma StartUploads(info: Files, list: seq<FileId>, x: XhrId)
    requires Distinct(list) && forall f | f in list :: f in info && info[f].status == QUEUED
    ensures |Uploading(Started(info, list, x))| == |Uploading(info)| + |list|
  {
    var added := set f | f in list;
    DistinctSize(list, added);
    assert Uploading(Started(info, list, x)) == Uploading(info) + added;
  }

  lemma CancelKeepsGroups(info: Files, pending: Requests, list: seq<FileId>, x: XhrId)
    requires GroupsOk(info, pending) && x in pending
    requires forall f :: f in list <==> f in pending[x]
    ensures GroupsOk(Ended(info, list, CANCELED), pending)
  {
    var after := Ended(info, list, CANCELED);
    forall y | y in pending
      ensures (forall f | f in pending[y] :: StatusOf(after, f) == if y == x then Some(CANCELED) else StatusOf(info, f))
    {
      forall f | f in pending[y] ensures f in list <==> y == x {
        assert info[f].xhr == Some(y);
        if f in list { assert f in pending[x] && info[f].xhr == Some(x); }
      }
    }
  }

  lemma CancelKeepsLinked(files: seq<FileId>, info: Files, pending: Requests, nextXhr: XhrId, list: seq<FileId>, x: XhrId)
    requires Linked(files, info, pending, nextXhr) && x in pending
    requires forall f :: f in list <==> f in pending[x]
    ensures Linked(files, Ended(info, list, CANCELED), pending, nextXhr)
  {
    CancelKeepsGroups(info, pending, list, x);
    hide GroupsOk, Distinct;
  }

  lemma EndedUploads(info: Files, list: seq<FileId>, status: Status)
    requires Final(status)
    ensures Uploading(Ended(info, list, status)) <= Uploading(info)
    ensures |Uploading(Ended(info, list, status))| <= |Uploading(info)|
  {
    var a, b := Uploading(Ended(info, list, status)), Uploading(info);
    assert b == a + (b - a);
  }

  lemma UploadingListed(files: seq<FileId>, info: Files)
    requires Distinct(files)
    requires forall f | f in info && info[f].status == UPLOADING :: f in files
    ensures |WithStatus(files, info, UPLOADING)| == |Uploading(info)|
  {
    WithStatusMembers(files, info, UPLOADING);
    DistinctSize(WithStatus(files, info, UPLOADING), Uploading(info));
  }

  /** What the scheduler keeps besides the list of files. */
  datatype Snapshot = Snapshot(info: Files, pending: Requests, nextXhr: XhrId)

  function Without(pending: Requests, x: XhrId): Requests {
    map k | k in pending && k != x :: pending[k]
  }

  /** An uploading file is cancelled with its whole request, a waiting one by
      itself; anything else is left alone. */
  ghost function Cancelled(info: Files, pending: Requests, f: FileId): Files
    requires f in info
  {
    if info[f].status == UPLOADING then
      Ended(info, if info[f].xhr.Some? && info[f].xhr.value in pending then pending[info[f].xhr.value] else [], CANCELED)
    else if info[f].status == ADDED || info[f].status == QUEUED then
      Ended(info, [f], CANCELED)
    else info
  }

  /** All files of the request have their outcome. */
  ghost function Answered(v: Snapshot, x: XhrId, success: bool): Snapshot
    requires x in v.pending
  {
    Snapshot(Ended(v.info, v.pending[x], if success then SUCCESS else ERROR), Without(v.pending, x), v.nextXhr)
  }

  /** The files that a call of processQueue takes from the queue. */
  ghost function Taken(files: seq<FileId>, info: Files, parallelUploads: int): seq<FileId> {
    var queue := WithStatus(files, info, QUEUED);
    var free := parallelUploads - |Uploading(info)|;
    if free <= 0 then [] else queue[..Least(free, |queue|)]
  }

  /** The requests that it opens for them: one for all, or one each. */
  function Groups(multiple: bool, list: seq<FileId>): seq<seq<FileId>> {
    if list == [] then [] else if multiple then [list]
    else seq(|list|, i requires 0 <= i < |list| => [list[i]])
  }

  /** From v to w the listed files start, in the given new requests, and nothing
      else changes. */
  ghost predicate OnlyStarted(v: Snapshot, w: Snapshot, list: seq<FileId>, groups: seq<seq<FileId>>) {
    && Progress(v.info, w.info) && w.info.Keys == v.info.Keys
    && (forall f | f in w.info ::
          if f in list then w.info[f] == File(UPLOADING, v.info[f].accepted, w.info[f].xhr) else w.info[f] == v.info[f])
    && |Uploading(w.info)| == |Uploading(v.info)| + |list|
    && w.nextXhr == v.nextXhr + |groups|
    && (forall x :: x in w.pending <==> x in v.pending || v.nextXhr <= x < w.nextXhr)
    && (forall x | x in v.pending :: w.pending[x] == v.pending[x])
    && (forall k | 0 <= k < |groups| :: v.nextXhr + k in w.pending && w.pending[v.nextXhr + k] == groups[k])
  }

  lemma StartIsAllThatChanges(v: Snapshot, list: seq<FileId>)
    requires var info := Started(v.info, list, v.nextXhr);
             Progress(v.info, info) && |Uploading(info)| == |Uploading(v.info)| + |list|
    requires forall x | x in v.pending :: x < v.nextXhr
    ensures OnlyStarted(v, Snapshot(Started(v.info, list, v.nextXhr), v.pending[v.nextXhr := list], v.nextXhr + 1),
                        list, [list])
  {
    hide Progress, Uploading;
  }

  lemma OnlyStartedMore(u: Snapshot, v: Snapshot, w: Snapshot, list: seq<FileId>, groups: seq<seq<FileId>>, f: FileId)
    requires OnlyStarted(u, v, list, groups) && OnlyStarted(v, w, [f], [[f]]) && f !in list
    ensures OnlyStarted(u, w, list + [f], groups + [[f]])
  {
    hide Uploading;
    ProgressTransitive(u.info, v.info, w.info);
    hide Progress;
    var all := groups + [[f]];
    forall k | 0 <= k < |all| ensures u.nextXhr + k in w.pending && w.pending[u.nextXhr + k] == all[k] {
      if k == |groups| { assert v.nextXhr + 0 == u.nextXhr + k && [[f]][0] == [f]; }
    }
  }

  lemma OnlyStartedNone(v: Snapshot, w: Snapshot)
    ensures OnlyStarted(v, v, [], [])
    ensures OnlyStarted(v, w, [], []) ==> w == v
  {}

  /** A call of processQueue leaves nothing for another one to start. */
  lemma NothingLeftToStart(files: seq<FileId>, v: Snapshot, w: Snapshot, parallelUploads: int, groups: seq<seq<FileId>>)
    requires OnlyStarted(v, w, Taken(files, v.info, parallelUploads), groups)
    ensures Taken(files, w.info, parallelUploads) == []
  {
    hide Progress, Uploading, WithStatus;
    var queue, rest := WithStatus(files, v.info, QUEUED), WithStatus(files, w.info, QUEUED);
    WithStatusMembers(files, v.info, QUEUED);
    WithStatusMembers(files, w.info, QUEUED);
    if parallelUploads - |Uploading(v.info)| > |queue| {
      assert Taken(files, v.info, parallelUploads) == queue;
      HeadIsMember(rest);
      assert forall f :: f !in rest;
    }
  }

  /** Starting the head of the queue is fair, and fills what can be filled. */
  lemma ServedInOrder(files: seq<FileId>, v: Snapshot, w: Snapshot, parallelUploads: int, groups: seq<seq<FileId>>)
    requires Distinct(files) && OnlyStarted(v, w, Taken(files, v.info, parallelUploads), groups)
    ensures FirstComeFirstServed(files, v.info, w.info)
  {
    hide Progress, Uploading, WithStatus;
    var queue, taken := WithStatus(files, v.info, QUEUED), Taken(files, v.info, parallelUploads);
    WithStatusMembers(files, v.info, QUEUED);
    WithStatusOrder(files, v.info, QUEUED);
    forall p, q | 0 <= p < |files| && 0 <= q < |files|
                  && StatusOf(v.info, files[p]) == Some(QUEUED) && StatusOf(w.info, files[p]) == Some(UPLOADING)
                  && StatusOf(w.info, files[q]) == Some(QUEUED)
      ensures p < q
    {
      assert files[p] in taken && files[q] !in taken && files[q] in queue;
      var a :| 0 <= a < |taken| && taken[a] == files[p];
      var b :| 0 <= b < |queue| && queue[b] == files[q];
      InPrefix(queue, |taken|, b);
      assert taken[a] == queue[a];
      assert Before(files, queue[a], queue[b]);
    }
  }

  /** Afterwards no file waits or no slot is free. */
  lemma ServedLeavesNothing(files: seq<FileId>, v: Snapshot, w: Snapshot, parallelUploads: int, groups: seq<seq<FileId>>)
    requires OnlyStarted(v, w, Taken(files, v.info, parallelUploads), groups)
    ensures Waiting(files, w.info) == {} || |Uploading(w.info)| >= parallelUploads
  {
    hide OnlyStarted, Uploading, WithStatus;
    NothingLeftToStart(files, v, w, parallelUploads, groups);
    WithStatusMembers(files, w.info, QUEUED);
  }

  /** One request holds all files of a call, or each of its files has its own. */
  ghost predicate RequestsShared(multiple: bool, v: Snapshot, w: Snapshot) {
    forall f: FileId | StatusOf(v.info, f) == Some(QUEUED) && StatusOf(w.info, f) == Some(UPLOADING) ::
      w.info[f].xhr.Some? && w.info[f].xhr.value in w.pending && w.info[f].xhr.value !in v.pending
      && if multiple then
           forall g: FileId :: g in w.pending[w.info[f].xhr.value] <==>
                         StatusOf(v.info, g) == Some(QUEUED) && StatusOf(w.info, g) == Some(UPLOADING)
         else w.pending[w.info[f].xhr.value] == [f]
  }

  lemma ServedRequests(files: seq<FileId>, v: Snapshot, w: Snapshot, parallelUploads: int, multiple: bool)
    requires Linked(files, v.info, v.pending, v.nextXhr) && GroupsOk(w.info, w.pending)
    requires var taken := Taken(files, v.info, parallelUploads); OnlyStarted(v, w, taken, Groups(multiple, taken))
    ensures RequestsShared(multiple, v, w)
  {
    hide Progress, Uploading, WithStatus, Distinct, UploadsOk, LinksOk;
    WithStatusMembers(files, v.info, QUEUED);
    var taken := Taken(files, v.info, parallelUploads);
    var groups := Groups(multiple, taken);
    assert forall g: FileId :: g in taken <==> StatusOf(v.info, g) == Some(QUEUED) && StatusOf(w.info, g) == Some(UPLOADING);
    forall f | f in taken
      ensures w.info[f].xhr.Some? && w.info[f].xhr.value in w.pending && w.info[f].xhr.value !in v.pending
      ensures w.pending[w.info[f].xhr.value] == if multiple then taken else [f]
    {
      var i :| 0 <= i < |taken| && taken[i] == f;
      var k := if multiple then 0 else i;
      assert f in groups[k] && w.pending[v.nextXhr + k] == groups[k];
    }
  }

  lemma InPrefix(queue: seq<FileId>, k: nat, b: nat)
    requires k <= |queue| && b < |queue|
    ensures b < k ==> queue[b] in queue[..k]
  {
    if b < k { assert queue[..k][b] == queue[b]; }
  }

  lemma ServedFills(files: seq<FileId>, v: Snapshot, w: Snapshot, parallelUploads: int, groups: seq<seq<FileId>>)
    requires Distinct(files) && OnlyStarted(v, w, Taken(files, v.info, parallelUploads), groups)
    ensures |Uploading(w.info)| == if |Uploading(v.info)| >= parallelUploads then |Uploading(v.info)|
                                   else Least(parallelUploads, |Uploading(v.info)| + |Waiting(files, v.info)|)
  {
    hide Progress, Uploading, WithStatus;
    WithStatusMembers(files, v.info, QUEUED);
    DistinctSize(WithStatus(files, v.info, QUEUED), Waiting(files, v.info));
  }

  lemma HeadIsMember(list: seq<FileId>)
    ensures list == [] || list[0] in list
  {}

  lemma StartedCount(v: Snapshot, w: Snapshot, list: seq<FileId>, groups: seq<seq<FileId>>)
    requires OnlyStarted(v, w, list, groups)
    ensures |Uploading(w.info)| == |Uploading(v.info)| + |list|
  {}

  lemma GroupsSnoc(list: seq<FileId>, f: FileId)
    ensures Groups(false, list + [f]) == Groups(false, list) + [[f]]
  {}

  /** What users and requests do to the drop zone. */
  datatype Operation =
    | Add(file: FileId, rejected: bool)
    | Enqueue(file: FileId)
    | Process                                    // also the call that enqueueFile defers
    | Cancel(file: FileId)
    | Remove(file: FileId)
    | Answer(request: XhrId, success: bool)      // late ones included

  /** The drop zone at one moment. */
  datatype Moment = Moment(files: seq<FileId>, now: Snapshot)

  /** A file is added once, cancelled and removed when it is known, and a request
      is answered once. */
  predicate CanHappen(v: Snapshot, op: Operation) {
    match op
    case Add(f, _) => f !in v.info
    case Cancel(f) => f in v.info
    case Remove(f) => f in v.info
    case Answer(x, _) => x in v.pending
    case _ => true
  }

  ghost predicate WithinLimit(info: Files, parallelUploads: int) {
    Uploading(info) == {} || |Uploading(info)| <= parallelUploads
  }

  /** At no moment are there more uploads than allowed, and between any two
      moments no status has moved backwards or left a final one. */
  ghost predicate GoodHistory(history: seq<Moment>, parallelUploads: int) {
    && (forall i | 0 <= i < |history| :: WithinLimit(history[i].now.info, parallelUploads))
    && (forall i, j | 0 <= i <= j < |history| :: Progress(history[i].now.info, history[j].now.info))
  }

  lemma HistoryGrows(history: seq<Moment>, next: Moment, parallelUploads: int)
    requires history != [] && GoodHistory(history, parallelUploads)
    requires Progress(history[|history| - 1].now.info, next.now.info) && WithinLimit(next.now.info, parallelUploads)
    ensures GoodHistory(history + [next], parallelUploads)
  {
    hide Progress, WithinLimit;
    ProgressReflexive(next.now.info);
    forall i | 0 <= i < |history| ensures Progress(history[i].now.info, next.now.info) {
      ProgressTransitive(history[i].now.info, history[|history| - 1].now.info, next.now.info);
    }
  }

  /** What was cancelled at some moment is cancelled ever after. */
  ghost predicate CancelledForGood(history: seq<Moment>) {
    forall i, j, f | 0 <= i <= j < |history| && StatusOf(history[i].now.info, f) == Some(CANCELED) ::
      StatusOf(history[j].now.info, f) == Some(CANCELED)
  }

  lemma GoodMeansCancelledForGood(history: seq<Moment>, parallelUploads: int)
    requires GoodHistory(history, parallelUploads)
    ensures CancelledForGood(history)
  {
    forall i, j, f | 0 <= i <= j < |history| && StatusOf(history[i].now.info, f) == Some(CANCELED)
      ensures StatusOf(history[j].now.info, f) == Some(CANCELED)
    {
      assert Progress(history[i].now.info, history[j].now.info);
    }
  }

  class Dropzone {
    var files: seq<FileId>
    var info: Files
    // Requests whose terminal callback is still to come.
    var pending: Requests
    var nextXhr: XhrId
    const parallelUploads: int
    const uploadMultiple: bool
    const autoProcessQueue: bool
    const autoQueue: bool

    /** Never more uploads at once than allowed. */
    ghost predicate Valid()
      reads this
    {
      Linked(files, info, pending, nextXhr) && WithinLimit(info, parallelUploads)
    }

    ghost function Now(): Snapshot
      reads this
    {
      Snapshot(info, pending, nextXhr)
    }

    /** What one call of processQueue does: the files it takes start, in one
        request or one each, and nothing else changes. */
    ghost predicate Served(list: seq<FileId>, v: Snapshot, w: Snapshot) {
      var taken := Taken(list, v.info, parallelUploads);
      OnlyStarted(v, w, taken, Groups(uploadMultiple, taken))
    }

    /** From v to w the queue has moved on, if it does so by itself. */
    ghost predicate QueueMoved(list: seq<FileId>, v: Snapshot, w: Snapshot) {
      if autoProcessQueue then Served(list, v, w) else w == v
    }

    constructor (parallelUploads: int, uploadMultiple: bool, autoProcessQueue: bool, autoQueue: bool)
      ensures Valid() && files == [] && Now() == Snapshot(map[], map[], 0)
      ensures this.parallelUploads == parallelUploads && this.uploadMultiple == uploadMultiple
      ensures this.autoProcessQueue == autoProcessQueue && this.autoQueue == autoQueue
    {
      files, info, pending, nextXhr := [], map[], map[], 0;
      this.parallelUploads := parallelUploads;
      this.uploadMultiple := uploadMultiple;
      this.autoProcessQueue := autoProcessQueue;
      this.autoQueue := autoQueue;
      new;
      assert Uploading(info) == {};
    }

    method GetFilesWithStatus(status: Status) returns (results: seq<FileId>)
      ensures results == WithStatus(files, info, status)
      ensures forall f :: f in results <==> f in files && StatusOf(info, f) == Some(status)
      ensures InListOrder(files, results) && (Distinct(files) ==> Distinct(results))
    {
      WithStatusMembers(files, info, status);
      WithStatusOrder(files, info, status);
      hide InListOrder, Distinct;
      results := [];
      assert files[..0] == [];
      for i := 0 to |files|
        invariant results == WithStatus(files[..i], info, status)
      {
        assert files[..i + 1][..i] == files[..i];
        if StatusOf(info, files[i]) == Some(status) {
          results := results + [files[i]];
        }
      }
      assert files[..|files|] == files;
    }

    /** The loop of processFiles. */
    method MarkUploading(list: seq<FileId>)
      requires forall f | f in list :: f in info
      modifies `info
      ensures info.Keys == old(info).Keys
      ensures forall f | f in info :: info[f] == if f in list then old(info)[f].(status := UPLOADING) else old(info)[f]
    {
      ghost var before := info;
      for i := 0 to |list|
        invariant info.Keys == before.Keys
        invariant forall f | f in info :: info[f] == if f in list[..i] then before[f].(status := UPLOADING) else before[f]
      {
        assert list[..i + 1] == list[..i] + [list[i]];
        info := info[list[i] := info[list[i]].(status := UPLOADING)];
      }
      assert list[..|list|] == list;
    }

    /** The loop of uploadFiles. */
    method AttachRequest(list: seq<FileId>, x: XhrId)
      requires forall f | f in list :: f in info
      modifies `info
      ensures info.Keys == old(info).Keys
      ensures forall f | f in info :: info[f] == if f in list then old(info)[f].(xhr := Some(x)) else old(info)[f]
    {
      ghost var before := info;
      for i := 0 to |list|
        invariant info.Keys == before.Keys
        invariant forall f | f in info :: info[f] == if f in list[..i] then before[f].(xhr := Some(x)) else before[f]
      {
        assert list[..i + 1] == list[..i] + [list[i]];
        info := info[list[i] := info[list[i]].(xhr := Some(x))];
      }
      assert list[..|list|] == list;
    }

    /** processFiles and uploadFiles: all listed files go into one new request. */
    method ProcessFiles(list: seq<FileId>)
      requires forall f | f in list :: f in info
      modifies `info, `pending, `nextXhr
      ensures info == Started(old(info), list, old(nextXhr))
      ensures pending == old(pending)[old(nextXhr) := list] && nextXhr == old(nextXhr) + 1
    {
      MarkUploading(list);
      var x := nextXhr;
      nextXhr := nextXhr + 1;
      AttachRequest(list, x);
      pending := pending[x := list];
    }

    /** Listed files that wait in the queue, each once. */
    ghost predicate Startable(list: seq<FileId>)
      reads this
    {
      Distinct(list) && forall f | f in list :: f in files && f in info && info[f].status == QUEUED
    }

    lemma QueueFacts()
      requires Linked(files, info, pending, nextXhr)
      ensures |WithStatus(files, info, UPLOADING)| == |Uploading(info)|
      ensures Startable(WithStatus(files, info, QUEUED))
    {
      UploadingListed(files, info);
      WithStatusMembers(files, info, QUEUED);
    }

    lemma PrefixStartable(list: seq<FileId>, k: nat)
      requires Startable(list) && k <= |list|
      ensures Startable(list[..k])
    {}

    /** processFile on the first file of the queue. */
    method ProcessFile(file: FileId)
      requires Linked(files, info, pending, nextXhr) && file in files && info[file].status == QUEUED
      modifies `info, `pending, `nextXhr
      ensures Linked(files, info, pending, nextXhr)
      ensures OnlyStarted(old(Now()), Now(), [file], [[file]])
    {
      assert Startable([file]);
      hide Linked, OnlyStarted, Startable;
      ProcessGroup([file]);
    }

    /** The loop of processQueue: one request per file, from the queue's head. */
    method ProcessOneByOne(queue: seq<FileId>, processingLength: nat)
      requires Linked(files, info, pending, nextXhr) && processingLength < parallelUploads
      requires Startable(queue)
      modifies `info, `pending, `nextXhr
      ensures Linked(files, info, pending, nextXhr)
      ensures var taken := queue[..Least(parallelUploads - processingLength, |queue|)];
              OnlyStarted(old(Now()), Now(), taken, Groups(false, taken))
    {
      hide Linked, Uploading, Progress;
      var i := processingLength;
      var queuedFiles := queue;
      ghost var done := 0;
      ghost var start := Now();
      OnlyStartedNone(start, start);
      assert queue[..0] == [];
      while i < parallelUploads
        invariant done <= |queue| && queuedFiles == queue[done..] && i == processingLength + done <= parallelUploads
        invariant Linked(files, info, pending, nextXhr)
        invariant OnlyStarted(start, Now(), queue[..done], Groups(false, queue[..done]))
      {
        if |queuedFiles| == 0 { break; }
        var file := queuedFiles[0];
        assert file == queue[done] && queue[..done + 1] == queue[..done] + [file];
        assert file !in queue[..done];
        queuedFiles := queuedFiles[1..];
        ghost var before := Now();
        ProcessFile(file);
        GroupsSnoc(queue[..done], file);
        OnlyStartedMore(start, before, Now(), queue[..done], Groups(false, queue[..done]), file);
        done := done + 1;
        i := i + 1;
      }
    }

    /** processQueue starts queued files in list order until the limit or the end
        of the queue is reached, and touches nothing else: no file starts while an
        earlier one is left waiting. */
    method ProcessQueue()
      requires Valid()
      modifies `info, `pending, `nextXhr
      ensures Valid() && Served(files, old(Now()), Now())
      ensures FirstComeFirstServed(files, old(info), info)
      ensures var before := |Uploading(old(info))|;
              |Uploading(info)| == if before >= parallelUploads then before
                                   else Least(parallelUploads, before + |Waiting(files, old(info))|)
      ensures Waiting(files, info) == {} || |Uploading(info)| >= parallelUploads
      ensures RequestsShared(uploadMultiple, old(Now()), Now())
    {
      ghost var start := Now();
      ServeTheQueue();
      hide Served, GroupsOk, UploadsOk, LinksOk, RequestsOk, RequestsShared, FirstComeFirstServed, Uploading, Distinct;
      ServedIsFair(files, start, Now());
      ServedTogether(files, start, Now());
    }

    lemma ServedTogether(list: seq<FileId>, v: Snapshot, w: Snapshot)
      requires Linked(list, v.info, v.pending, v.nextXhr) && GroupsOk(w.info, w.pending) && Served(list, v, w)
      ensures RequestsShared(uploadMultiple, v, w)
    {
      hide Linked, OnlyStarted, Taken, GroupsOk, RequestsShared;
      ServedRequests(list, v, w, parallelUploads, uploadMultiple);
    }

    lemma ServedIsFair(list: seq<FileId>, v: Snapshot, w: Snapshot)
      requires Distinct(list) && Served(list, v, w)
      ensures FirstComeFirstServed(list, v.info, w.info)
      ensures var before := |Uploading(v.info)|;
              |Uploading(w.info)| == if before >= parallelUploads then before
                                     else Least(parallelUploads, before + |Waiting(list, v.info)|)
      ensures Waiting(list, w.info) == {} || |Uploading(w.info)| >= parallelUploads
    {
      hide OnlyStarted, Taken, Uploading, Waiting, FirstComeFirstServed, Distinct;
      ServedInOrder(list, v, w, parallelUploads, Groups(uploadMultiple, Taken(list, v.info, parallelUploads)));
      ServedFills(list, v, w, parallelUploads, Groups(uploadMultiple, Taken(list, v.info, parallelUploads)));
      ServedLeavesNothing(list, v, w, parallelUploads, Groups(uploadMultiple, Taken(list, v.info, parallelUploads)));
    }

    /** The body of processQueue. */
    method ServeTheQueue()
      requires Valid()
      modifies `info, `pending, `nextXhr
      ensures Valid() && Served(files, old(Now()), Now())
    {
      hide Linked, Served, WithStatus, WithinLimit, Uploading, Startable;
      QueueFacts();
      NothingTaken();
      var uploading := GetFilesWithStatus(UPLOADING);
      var processingLength := |uploading|;
      if processingLength >= parallelUploads { return; }
      var queuedFiles := GetFilesWithStatus(QUEUED);
      if !(|queuedFiles| > 0) { return; }
      ServeQueue(queuedFiles, processingLength);
    }

    /** With no slot free or nothing queued, staying put is what is asked for. */
    lemma NothingTaken()
      ensures parallelUploads <= |Uploading(info)| || WithStatus(files, info, QUEUED) == [] ==>
                Served(files, Now(), Now())
    {
      OnlyStartedNone(Now(), Now());
    }

    lemma QueueTaken()
      ensures |Uploading(info)| < parallelUploads ==>
                var queue := WithStatus(files, info, QUEUED);
                Taken(files, info, parallelUploads) == queue[..Least(parallelUploads - |Uploading(info)|, |queue|)]
    {}

    /** The rest of processQueue: a slot is free and a file waits. */
    method ServeQueue(queuedFiles: seq<FileId>, processingLength: nat)
      requires Linked(files, info, pending, nextXhr) && Startable(queuedFiles) && queuedFiles != []
      requires queuedFiles == WithStatus(files, info, QUEUED)
      requires processingLength == |Uploading(info)| < parallelUploads
      modifies `info, `pending, `nextXhr
      ensures Linked(files, info, pending, nextXhr) && WithinLimit(info, parallelUploads)
      ensures Served(files, old(Now()), Now())
    {
      QueueTaken();
      hide Linked, OnlyStarted, Startable, Uploading, WithStatus, Taken;
      ghost var before := Now();
      ghost var taken := queuedFiles[..Least(parallelUploads - processingLength, |queuedFiles|)];
      if uploadMultiple {
        var slice := queuedFiles[..Least(parallelUploads - processingLength, |queuedFiles|)];
        PrefixStartable(queuedFiles, |slice|);
        ProcessGroup(slice);
      } else {
        ProcessOneByOne(queuedFiles, processingLength);
      }
      StartedCount(before, Now(), taken, Groups(uploadMultiple, taken));
    }

    /** processFiles on a slice of the queue. */
    method ProcessGroup(slice: seq<FileId>)
      requires Linked(files, info, pending, nextXhr) && slice != [] && Startable(slice)
      modifies `info, `pending, `nextXhr
      ensures Linked(files, info, pending, nextXhr)
      ensures OnlyStarted(old(Now()), Now(), slice, [slice])
    {
      StartKeepsLinked(files, info, pending, nextXhr, slice);
      StartUploads(info, slice, nextXhr);
      BelowNext();
      StartIsAllThatChanges(Now(), slice);
      hide Linked, OnlyStarted;
      ProcessFiles(slice);
    }

    lemma BelowNext()
      requires Linked(files, info, pending, nextXhr)
      ensures forall x | x in pending :: x < nextXhr
    {}

    /** What processQueue does where the queue moves by itself. */
    method MoveQueue()
      requires Valid()
      modifies `info, `pending, `nextXhr
      ensures Valid() && QueueMoved(files, old(Now()), Now())
      ensures Progress(old(info), info) && info.Keys == old(info).Keys
      ensures !autoProcessQueue ==> Now() == old(Now())
      ensures autoProcessQueue ==> FirstComeFirstServed(files, old(info), info)
                                   && (Waiting(files, info) == {} || |Uploading(info)| >= parallelUploads)
    {
      hide Linked, Uploading;
      if autoProcessQueue {
        ProcessQueue();
      }
    }

    /** A file that is not uploading changes its record. */
    lemma SingleKeepsLinked(f: FileId, g: File)
      requires Linked(files, info, pending, nextXhr) && g.status != UPLOADING && g.xhr == None
      requires f in info ==> info[f].xhr == None
      ensures Linked(files, info[f := g], pending, nextXhr)
      ensures Uploading(info[f := g]) == Uploading(info)
    {
      hide Distinct;
      var after := info[f := g];
      forall x | x in pending ensures forall k | k in pending[x] :: StatusOf(after, k) == StatusOf(info, k) {
        forall k | k in pending[x] ensures k != f { assert info[k].xhr == Some(x); }
      }
    }

    /** addFile with the default accept function: `rejected` stands for the size,
        type and count checks. */
    method AddFile(f: FileId, rejected: bool)
      requires Valid() && f !in info
      modifies this
      ensures Valid() && Progress(old(info), info) && files == old(files) + [f]
      ensures !rejected ==>
                Now() == old(Now()).(info := old(info)[f := File(if autoQueue then QUEUED else ADDED, true, None)])
      ensures rejected ==>
                QueueMoved(files, old(Now()).(info := old(info)[f := File(ERROR, false, None)]), Now())
    {
      hide Progress, Linked, Uploading;
      ghost var info0 := info;
      ListFile(f);
      AddedProgress(info0, info, f);
      ghost var info1 := info;
      if rejected {
        assert info[f := info[f].(status := ERROR)] == info0[f := File(ERROR, false, None)];
        Reject(f);
        ProgressTransitive(info0, info1, info);
      } else {
        AcceptFile(f);
        if autoQueue {
          var thrown := EnqueueFile(f);
        }
        AddedProgress(info0, info, f);
      }
    }

    method ListFile(f: FileId)
      requires Valid() && f !in info
      modifies `files, `info
      ensures Valid() && files == old(files) + [f] && info == old(info)[f := File(ADDED, false, None)]
    {
      NewFileKeepsLinked(f);
      hide Linked, Uploading;
      files := files + [f];
      info := info[f := File(ADDED, false, None)];
    }

    method AcceptFile(f: FileId)
      requires Valid() && f in info && info[f] == File(ADDED, false, None)
      modifies `info
      ensures Valid() && info == old(info)[f := File(ADDED, true, None)]
    {
      SingleKeepsLinked(f, File(ADDED, true, None));
      hide Linked, Uploading;
      info := info[f := info[f].(accepted := true)];
    }

    /** _errorProcessing of a file that was not accepted. */
    method Reject(f: FileId)
      requires Valid() && f in info && info[f].xhr == None && Rank(info[f].status) <= 1
      modifies `info, `pending, `nextXhr
      ensures Valid() && Progress(old(info), info)
      ensures QueueMoved(files, old(Now()).(info := old(info)[f := old(info)[f].(status := ERROR)]), Now())
    {
      ghost var info0 := info;
      SingleKeepsLinked(f, info[f].(status := ERROR));
      info := info[f := info[f].(status := ERROR)];
      hide Linked;
      ghost var info1 := info;
      assert Progress(info0, info1);
      MoveQueue();
      ProgressTransitive(info0, info1, info);
    }

    lemma AddedProgress(before: Files, after: Files, f: FileId)
      requires f !in before && forall k | k in before :: k in after && after[k] == before[k]
      ensures Progress(before, after)
    {}

    lemma NewFileKeepsLinked(f: FileId)
      requires Linked(files, info, pending, nextXhr) && f !in info
      ensures Linked(files + [f], info[f := File(ADDED, false, None)], pending, nextXhr)
      ensures Uploading(info[f := File(ADDED, false, None)]) == Uploading(info)
    {
      SingleKeepsLinked(f, File(ADDED, false, None));
      hide GroupsOk;
      assert Distinct(files + [f]);
    }

    /** enqueueFile throws unless the file was added and accepted.  The deferred
        call of processQueue is a later step. */
    method EnqueueFile(f: FileId) returns (thrown: bool)
      requires Valid()
      modifies `info
      ensures Valid() && Progress(old(info), info)
      ensures thrown <==> !(f in old(info) && old(info)[f].status == ADDED && old(info)[f].accepted)
      ensures thrown ==> info == old(info)
      ensures !thrown ==> info == old(info)[f := old(info)[f].(status := QUEUED)]
    {
      if f in info && info[f].status == ADDED && info[f].accepted {
        SingleKeepsLinked(f, info[f].(status := QUEUED));
        info := info[f := info[f].(status := QUEUED)];
        return false;
      }
      return true;
    }

    /** Sets the final status of a list of files. */
    method Finish(list: seq<FileId>, status: Status)
      requires forall f | f in list :: f in info
      modifies `info
      ensures info == Ended(old(info), list, status)
    {
      ghost var before := info;
      for i := 0 to |list|
        invariant info.Keys == before.Keys
        invariant forall f | f in info :: info[f] == if f in list[..i] then before[f].(status := status) else before[f]
      {
        assert list[..i + 1] == list[..i] + [list[i]];
        info := info[list[i] := info[list[i]].(status := status)];
      }
      assert list[..|list|] == list;
    }

    /** The listed files that belong to request x. */
    method GetFilesWithXhr(x: XhrId) returns (group: seq<FileId>)
      requires Linked(files, info, pending, nextXhr) && x in pending
      requires StatusOf(info, pending[x][0]) == Some(UPLOADING)
      ensures forall f :: f in group <==> f in pending[x]
    {
      group := [];
      for i := 0 to |files|
        invariant forall f :: f in group <==> f in files[..i] && info[f].xhr == Some(x)
      {
        if info[files[i]].xhr == Some(x) { group := group + [files[i]]; }
      }
      assert files[..|files|] == files;
      assert pending[x][0] in pending[x];
    }

    method CancelGroup(f: FileId)
      requires Valid() && f in info && info[f].status == UPLOADING
      modifies `info
      ensures Valid() && Progress(old(info), info)
      ensures info == Cancelled(old(info), pending, f)
    {
      UploadingGroup(f);
      hide Linked, Uploading;
      var x := info[f].xhr.value;
      var group := GetFilesWithXhr(x);
      CancelKeepsLinked(files, info, pending, nextXhr, group, x);
      EndedUploads(info, group, CANCELED);
      assert Ended(info, group, CANCELED) == Cancelled(info, pending, f);
      Finish(group, CANCELED);
    }

    /** All files of an uploading file's request are uploading. */
    lemma UploadingGroup(f: FileId)
      requires Linked(files, info, pending, nextXhr) && f in info && info[f].status == UPLOADING
      ensures info[f].xhr.Some? && info[f].xhr.value in pending
      ensures var group := pending[info[f].xhr.value];
              && f in group && StatusOf(info, group[0]) == Some(UPLOADING)
              && forall g | g in group :: g in info && info[g].status == UPLOADING
    {
      hide Distinct;
      var group := pending[info[f].xhr.value];
      assert f in group && StatusOf(info, f) == Some(UPLOADING) && group[0] in group;
      forall g | g in group ensures g in info && info[g].status == UPLOADING {
        assert StatusOf(info, g) == Some(UPLOADING);
      }
    }

    method CancelOne(f: FileId)
      requires Valid() && f in info && (info[f].status == ADDED || info[f].status == QUEUED)
      modifies `info
      ensures Valid() && Progress(old(info), info)
      ensures info == Cancelled(old(info), pending, f)
    {
      SingleKeepsLinked(f, info[f].(status := CANCELED));
      info := info[f := info[f].(status := CANCELED)];
    }

    /** cancelUpload; then the queue moves on. */
    method CancelUpload(f: FileId)
      requires Valid() && f in info
      modifies `info, `pending, `nextXhr
      ensures Valid() && Progress(old(info), info)
      ensures QueueMoved(files, old(Now()).(info := Cancelled(old(info), old(pending), f)), Now())
      ensures f in info
              && info[f].status == if Final(old(info)[f].status) then old(info)[f].status else CANCELED
    {
      hide Linked, Uploading;
      ghost var info0 := info;
      if info[f].status == UPLOADING {
        CancelGroup(f);
      } else if info[f].status == ADDED || info[f].status == QUEUED {
        CancelOne(f);
      }
      ghost var info1 := info;
      CancelledStatus(info0, pending, f);
      assert Progress(info0, info1);
      MoveQueue();
      ProgressTransitive(info0, info1, info);
    }

    /** removeFile takes the file off the list, cancelling its upload first. */
    method RemoveFile(f: FileId)
      requires Valid() && f in info
      modifies this
      ensures Valid() && Progress(old(info), info) && files == Minus(old(files), f)
      ensures InListOrder(old(files), files) && forall g :: g in files <==> g in old(files) && g != f
      ensures if old(info)[f].status == UPLOADING
              then QueueMoved(old(files), old(Now()).(info := Cancelled(old(info), old(pending), f)), Now())
                   && f in info && info[f].status == CANCELED
              else Now() == old(Now())
    {
      if info[f].status == UPLOADING {
        CancelUpload(f);
      }
      RemovalKeepsLinked(f);
      MinusOrder(files, f);
      MinusMembers(files, f);
      hide Linked, Uploading, InListOrder, Distinct;
      files := Minus(files, f);
    }

    lemma CancelledStatus(info0: Files, pending0: Requests, f: FileId)
      requires f in info0 && Linked(files, info0, pending0, nextXhr)
      ensures f in Cancelled(info0, pending0, f)
      ensures Cancelled(info0, pending0, f)[f].status
           == if Final(info0[f].status) then info0[f].status else CANCELED
    {}

    lemma RemovalKeepsLinked(f: FileId)
      requires Linked(files, info, pending, nextXhr) && f in info && info[f].status != UPLOADING
      ensures Linked(Minus(files, f), info, pending, nextXhr)
      ensures f !in Minus(files, f) && forall g | g in Minus(files, f) :: g in files
    {
      hide GroupsOk;
      MinusMembers(files, f);
    }

    /** The terminal callback of a request.  A cancelled request is ignored; else
        all its files get the outcome, and the queue moves on. */
    method Callback(x: XhrId, success: bool)
      requires Valid() && x in pending
      modifies `info, `pending, `nextXhr
      ensures Valid() && Progress(old(info), info)
      ensures if StatusOf(old(info), old(pending)[x][0]) == Some(CANCELED)
              then Now() == old(Now()).(pending := Without(old(pending), x))
              else QueueMoved(files, Answered(old(Now()), x, success), Now())
      ensures forall f | f in old(pending)[x] ::
                f in old(info) && f in info && info[f].status == (
                  if old(info)[f].status == CANCELED then CANCELED else if success then SUCCESS else ERROR)
    {
      var group := pending[x];
      assert group[0] in group;
      ghost var info0 := info;
      if info[group[0]].status == CANCELED {
        DropKeepsLinked(x);
        hide Linked, Uploading;
        pending := Without(pending, x);
        return;
      }
      hide Linked, Uploading;
      EndRequest(x, if success then SUCCESS else ERROR);
      ghost var ended := Now();
      MoveQueue();
      ProgressTransitive(info0, ended.info, info);
      if !success {
        hide OnlyStarted, Progress;
        RepeatErrors(group, ended);
      }
    }

    /** The loop of _finished or _errorProcessing over the files of a request. */
    method EndRequest(x: XhrId, status: Status)
      requires Valid() && x in pending && Final(status)
      requires StatusOf(info, pending[x][0]) != Some(CANCELED)
      modifies `info, `pending
      ensures Valid() && Progress(old(info), info)
      ensures info == Ended(old(info), old(pending)[x], status) && pending == Without(old(pending), x)
      ensures forall f | f in old(pending)[x] ::
                f in old(info) && old(info)[f].status == UPLOADING && f in info && info[f].status == status
    {
      var group := pending[x];
      EndRequestKeepsLinked(x, status);
      EndedUploads(info, group, status);
      hide Linked;
      pending := Without(pending, x);
      Finish(group, status);
    }

    /** handleError runs _errorProcessing once for every file of the group; all
        rounds after the first change nothing. */
    method RepeatErrors(group: seq<FileId>, ghost ended: Snapshot)
      requires Valid() && QueueMoved(files, ended, Now()) && group != []
      requires forall f | f in group :: f in info && info[f].status == ERROR
      modifies `info, `pending, `nextXhr
      ensures Now() == old(Now())
    {
      hide Linked, Uploading, OnlyStarted, Taken;
      for i := 1 to |group|
        invariant Now() == old(Now())
      {
        assert Ended(info, group, ERROR) == info;
        Finish(group, ERROR);
        MoveQueue();
        QueueMovesOnce(files, ended, old(Now()), Now());
      }
    }

    lemma QueueMovesOnce(list: seq<FileId>, u: Snapshot, v: Snapshot, w: Snapshot)
      requires QueueMoved(list, u, v) && QueueMoved(list, v, w)
      ensures w == v
    {
      hide OnlyStarted, Taken;
      if autoProcessQueue {
        NothingLeftToStart(list, u, v, parallelUploads, Groups(uploadMultiple, Taken(list, u.info, parallelUploads)));
        OnlyStartedNone(v, w);
      }
    }

    // ----- runs -----

    ghost function This(): Moment
      reads this
    {
      Moment(files, Now())
    }

    /** What each operation does to the drop zone. */
    ghost predicate Effect(op: Operation, a: Moment, b: Moment)
      requires CanHappen(a.now, op)
    {
      var v := a.now;
      match op
      case Add(f, rejected) =>
        && b.files == a.files + [f]
        && if rejected then QueueMoved(b.files, v.(info := v.info[f := File(ERROR, false, None)]), b.now)
           else b.now == v.(info := v.info[f := File(if autoQueue then QUEUED else ADDED, true, None)])
      case Enqueue(f) =>
        && b.files == a.files
        && b.now == if f in v.info && v.info[f].status == ADDED && v.info[f].accepted
                    then v.(info := v.info[f := v.info[f].(status := QUEUED)]) else v
      case Process =>
        b.files == a.files && Served(a.files, v, b.now)
      case Cancel(f) =>
        b.files == a.files && QueueMoved(a.files, v.(info := Cancelled(v.info, v.pending, f)), b.now)
      case Remove(f) =>
        && b.files == Minus(a.files, f)
        && if v.info[f].status == UPLOADING
           then QueueMoved(a.files, v.(info := Cancelled(v.info, v.pending, f)), b.now) else b.now == v
      case Answer(x, success) =>
        && b.files == a.files
        && v.pending[x] != []
        && if StatusOf(v.info, v.pending[x][0]) == Some(CANCELED) then b.now == v.(pending := Without(v.pending, x))
           else QueueMoved(a.files, Answered(v, x, success), b.now)
    }

    method Perform(op: Operation)
      requires Valid() && CanHappen(Now(), op)
      modifies this
      ensures Valid() && Progress(old(info), info)
      ensures Effect(op, old(This()), This())
    {
      if op.Answer? { RequestsHaveFiles(op.request); }
      hide Linked, Uploading, Progress, QueueMoved, OnlyStarted, Taken, Groups, Cancelled, Answered, Without, Minus;
      match op
      case Add(f, rejected) => AddFile(f, rejected);
      case Enqueue(f) => var thrown := EnqueueFile(f);
      case Process =>
        ghost var before := Now();
        ProcessQueue();
        StartingIsProgress(before, Now());
      case Cancel(f) => CancelUpload(f);
      case Remove(f) => RemoveFile(f);
      case Answer(x, success) => Callback(x, success);
    }

    lemma RequestsHaveFiles(x: XhrId)
      requires Linked(files, info, pending, nextXhr) && x in pending
      ensures pending[x] != []
    {}

    lemma StartingIsProgress(v: Snapshot, w: Snapshot)
      requires Served(files, v, w)
      ensures Progress(v.info, w.info)
    {}

    lemma ThisIsGood()
      requires Valid()
      ensures GoodHistory([This()], parallelUploads) && WithinLimit(info, parallelUploads)
    {
      ProgressReflexive(info);
    }

    /** The history shows the operations, one after the other; those that cannot
        happen are passed over. */
    ghost predicate Shows(history: seq<Moment>, ops: seq<Operation>) {
      && |history| == |ops| + 1
      && forall i | 0 <= i < |ops| ::
           if CanHappen(history[i].now, ops[i]) then Effect(ops[i], history[i], history[i + 1])
           else history[i + 1] == history[i]
    }

    lemma ShowsMore(history: seq<Moment>, ops: seq<Operation>, i: nat, next: Moment)
      requires i < |ops| && |history| == i + 1 && Shows(history, ops[..i])
      requires if CanHappen(history[i].now, ops[i]) then Effect(ops[i], history[i], next) else next == history[i]
      ensures Shows(history + [next], ops[..i + 1])
    {
      hide Effect, CanHappen;
      var h, o := history + [next], ops[..i + 1];
      forall k | 0 <= k < |o|
        ensures if CanHappen(h[k].now, o[k]) then Effect(o[k], h[k], h[k + 1]) else h[k + 1] == h[k]
      {
        if k < i { assert o[k] == ops[..i][k] && h[k] == history[k] && h[k + 1] == history[k + 1]; }
      }
    }

    /** Any sequence of operations. */
    method PerformAll(ops: seq<Operation>) returns (ghost history: seq<Moment>)
      requires Valid()
      modifies this
      ensures Valid() && Shows(history, ops)
      ensures history[0] == old(This()) && history[|ops|] == This()
      ensures GoodHistory(history, parallelUploads)
    {
      history := [This()];
      ThisIsGood();
      hide Linked, Uploading, Progress, GoodHistory, WithinLimit, Shows, Effect, CanHappen;
      NothingShown(history, ops);
      for i := 0 to |ops|
        invariant Valid() && |history| == i + 1 && Shows(history, ops[..i])
        invariant history[0] == old(This()) && history[i] == This()
        invariant GoodHistory(history, parallelUploads)
      {
        ProgressReflexive(info);
        var possible := Possible(ops[i]);
        if possible { Perform(ops[i]); }
        ThisIsGood();
        HistoryGrows(history, This(), parallelUploads);
        ShowsMore(history, ops, i, This());
        history := history + [This()];
      }
      assert ops[..|ops|] == ops;
    }

    lemma NothingShown(history: seq<Moment>, ops: seq<Operation>)
      requires |history| == 1
      ensures Shows(history, ops[..0])
    {}

    method Possible(op: Operation) returns (r: bool)
      ensures r <==> CanHappen(Now(), op)
    {
      match op
      case Add(f, _) => r := f !in info;
      case Cancel(f) => r := f in info;
      case Remove(f) => r := f in info;
      case Answer(x, _) => r := x in pending;
      case _ => r := true;
    }

    lemma DropKeepsLinked(x: XhrId)
      requires Linked(files, info, pending, nextXhr) && x in pending
      requires StatusOf(info, pending[x][0]) == Some(CANCELED)
      ensures Linked(files, info, Without(pending, x), nextXhr)
      ensures forall f | f in pending[x] :: f in info && info[f].status == CANCELED
    {
      hide Distinct;
      assert pending[x][0] in pending[x];
      assert forall f | f in pending[x] :: StatusOf(info, f) == Some(CANCELED);
    }

    lemma EndRequestKeepsLinked(x: XhrId, status: Status)
      requires Linked(files, info, pending, nextXhr) && x in pending && Final(status)
      requires StatusOf(info, pending[x][0]) != Some(CANCELED)
      ensures Linked(files, Ended(info, pending[x], status), Without(pending, x), nextXhr)
      ensures forall f | f in pending[x] :: f in info && info[f].status == UPLOADING
    {
      hide Distinct;
      var rest := Without(pending, x);
      var after := Ended(info, pending[x], status);
      assert pending[x][0] in pending[x];
      forall y | y in rest ensures forall f | f in rest[y] :: StatusOf(after, f) == StatusOf(info, f) {
        forall f | f in rest[y] ensures f !in pending[x] { assert info[f].xhr == Some(y); }
      }
    }
  }

  /** without: the list minus every occurrence of f. */
  function Minus(files: seq<FileId>, f: FileId): seq<FileId> {
    if files == [] then []
    else Minus(files[..|files| - 1], f) + if files[|files| - 1] != f then [files[|files| - 1]] else []
  }

  lemma {:induction false} MinusMembers(files: seq<FileId>, f: FileId)
    ensures forall g :: g in Minus(files, f) <==> g in files && g != f
    ensures Distinct(files) ==> Distinct(Minus(files, f))
  {
    if files != [] {
      var front, last := files[..|files| - 1], files[|files| - 1];
      assert files == front + [last];
      MinusMembers(front, f);
      if Distinct(files) { assert last !in front; }
    }
  }

  lemma {:induction false} MinusOrder(files: seq<FileId>, f: FileId)
    ensures InListOrder(files, Minus(files, f))
  {
    hide InListOrder;
    if files == [] {
      NoneInOrder(files);
    } else {
      var front, last := files[..|files| - 1], files[|files| - 1];
      assert files == front + [last];
      MinusOrder(front, f);
      MinusMembers(front, f);
      OrderExtends(front, Minus(front, f), last);
      assert Minus(front, f) + [] == Minus(front, f);
    }
  }

  /** Every run of a new drop zone, whatever its options. */
  method Upload(parallelUploads: int, uploadMultiple: bool, autoProcessQueue: bool, autoQueue: bool,
                ops: seq<Operation>)
    returns (zone: Dropzone, ghost history: seq<Moment>)
    ensures zone.Valid() && zone.Shows(history, ops)
    ensures history[0] == Moment([], Snapshot(map[], map[], 0)) && history[|ops|] == zone.This()
    ensures GoodHistory(history, parallelUploads) && CancelledForGood(history)
  {
    hide GoodHistory, CancelledForGood;
    zone := new Dropzone(parallelUploads, uploadMultiple, autoProcessQueue, autoQueue);
    history := zone.PerformAll(ops);
    GoodMeansCancelledForGood(history, parallelUploads);
  }
}
