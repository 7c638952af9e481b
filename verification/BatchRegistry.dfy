/**
 The mutable side of a batch run: the record store on disk, the inbox store, the
 handle whose record the branch tasks update in place, and the registry of live
 handles. Each method is proved against the record functions of `BatchRecord`,
 the same ones the transition system `BatchProtocol` is built from.
 */
module BatchRegistry {
  import opened Common
  import opened BatchRecord
  import BatchProtocol

  /** A `<batchId>.json` file: a record, or a body that does not parse (a torn write). */
  datatype DiskFile = Readable(record: BatchRun) | Unreadable

  datatype LoadError = InvalidId | ReadFailed | NotFound

  class RecordStore {
    var files: map<string, DiskFile>

    method Write(record: BatchRun)
      modifies this
      ensures files == old(files)[record.batchId := Readable(record)]
    {
      files := files[record.batchId := Readable(record)];
    }
  }

  class InboxStore {
    var items: seq<InboxItem>

    /** `append_item`; `ok` is whether the database accepts the insert. */
    method Append(item: InboxItem, ok: bool) returns (id: Option<nat>)
      modifies this
      ensures ok ==> id == Some(|old(items)|) && items == old(items) + [item]
      ensures !ok ==> id == None && items == old(items)
    {
      if !ok {
        return None;
      }
      id := Some(|items|);
      items := items + [item];
    }

    /** `update_item_content`: rewrites the text of one row, fails on an unknown one. */
    method UpdateContent(id: nat, text: InboxText) returns (ok: bool)
      modifies this
      ensures ok <==> id < |old(items)|
      ensures items == Refreshed(old(items), Some(id), text)
    {
      ok := id < |items|;
      if ok {
        items := items[id := items[id].(text := text)];
      }
    }
  }

  class BatchRunHandle {
    var record: BatchRun
    const store: RecordStore

    constructor (record: BatchRun, store: RecordStore)
      ensures this.record == record && this.store == store
    {
      this.record := record;
      this.store := store;
    }

    method Persist()
      modifies store
      ensures store.files == old(store.files)[record.batchId := Readable(record)]
    {
      store.Write(record);
    }

    /** `iter_mut().find(|b| b.index == index)`. */
    method FindRow(index: nat) returns (k: Option<nat>)
      ensures k == FindBranch(record.branches, index)
    {
      var i := 0;
      while i < |record.branches|
        invariant 0 <= i <= |record.branches|
        invariant forall j :: 0 <= j < i ==> record.branches[j].index != index
      {
        if record.branches[i].index == index {
          return Some(i);
        }
        i := i + 1;
      }
      k := None;
    }

    /** `fold_branch_spend`: memory only, nothing is persisted. */
    method FoldBranchSpend(index: nat, cost: real) returns (dto: BatchRun)
      modifies this`record
      ensures record == WithSpend(old(record), index, cost)
      ensures dto == record
    {
      var k := FindRow(index);
      if k.Some? {
        var branch := record.branches[k.value];
        branch := branch.(spent := branch.spent + cost);
        record := record.(branches := record.branches[k.value := branch]);
      }
      dto := record;
    }

    /** The branch row of the terminal write; an unknown index writes nothing. */
    method WriteTerminalRow(index: nat, obs: Observation, summary: Option<DiffSummary>)
      modifies this`record
      ensures record == WithFinalBranch(old(record), index, obs, summary)
    {
      var k := FindRow(index);
      if k.Some? {
        var branch := record.branches[k.value];
        branch := branch.(status := if obs.completed then BranchCompleted else BranchFailed);
        branch := branch.(error := if obs.error.Some? then Some(TruncateChars(obs.error.value, ERROR_MAX_CHARS)) else None);
        branch := branch.(summary := summary);
        var passed := if obs.tests.Some? then Some(obs.tests.value.0) else None;
        var total := if obs.tests.Some? then Some(obs.tests.value.1) else None;
        branch := branch.(verification := Some(Verification(obs.completed && obs.error == None, passed, total)));
        record := record.(branches := record.branches[k.value := branch]);
      }
    }

    /** The steps of the locked write. */
    method WriteOutcome(index: nat, obs: Observation, summary: Option<DiffSummary>, inbox: InboxStore, appendOk: bool)
        returns (wroteInbox: bool)
      modifies this`record, store, inbox
      ensures
        var write := FinalizeWrite(old(record), old(inbox.items), index, obs, summary, appendOk);
        && record == write.record
        && inbox.items == write.inbox
        && wroteInbox == write.attempted
        && store.files == old(store.files)[record.batchId := Readable(record)]
    {
      WriteTerminalRow(index, obs, summary);
      var wasRunning := record.status == Running;
      var allTerminal := AllTerminal(record.branches);
      var becameTerminal := wasRunning && allTerminal;
      if becameTerminal {
        record := record.(status := AggregateStatus(record.branches));
      }
      assert record == WithOutcome(old(record), index, obs, summary);
      wroteInbox := becameTerminal && record.status != Discarded && record.inboxItem == None;
      if wroteInbox {
        var item := inbox.Append(InboxItem(record.batchId, record.title, CompletionText(record.branches)), appendOk);
        if item.Some? {
          record := record.(inboxItem := item);
        }
      }
      Persist();
    }

    /** Phase 3 of `finalize_branch`: one locked write of record, inbox and disk. */
    method FinalizeBranch(index: nat, obs: Observation, summary: Option<DiffSummary>, inbox: InboxStore, appendOk: bool)
        returns (wroteInbox: bool)
      modifies this`record, store, inbox
      ensures
        var write := FinalizeWrite(old(record), old(inbox.items), index, obs, summary, appendOk);
        && record == write.record
        && inbox.items == write.inbox
        && wroteInbox == write.attempted
        && store.files == old(store.files)[record.batchId := Readable(record)]
      ensures |record.branches| == |old(record).branches|
      ensures forall k :: 0 <= k < |record.branches| && !FirstAt(old(record).branches, index, k) ==>
                record.branches[k] == old(record).branches[k]
      ensures forall k :: FirstAt(old(record).branches, index, k) ==>
                && record.branches[k].status == (if obs.completed then BranchCompleted else BranchFailed)
                && (record.branches[k].error == None <==> obs.error == None)
                && (obs.error.Some? && |obs.error.value| <= 500 ==> record.branches[k].error == obs.error)
                && (obs.error.Some? && |obs.error.value| > 500 ==> record.branches[k].error == Some(obs.error.value[..500] + "\U{2026}"))
                && record.branches[k].summary == summary
      ensures wroteInbox <==>
                && old(record).status == Running && old(record).inboxItem == None
                && forall k :: 0 <= k < |record.branches| ==> record.branches[k].status != BranchRunning
      ensures inbox.items == old(inbox.items) +
                if wroteInbox && appendOk then [InboxItem(old(record).batchId, old(record).title, CompletionText(record.branches))] else []
    {
      wroteInbox := WriteOutcome(index, obs, summary, inbox, appendOk);
      FinalizeMeans(old(record), old(inbox.items), index, obs, summary, appendOk);
      hide FinalizeWrite, FirstAt, VerificationMatches;
    }

    method RefreshInbox(inbox: InboxStore, text: InboxText)
      modifies inbox
      ensures inbox.items == Refreshed(old(inbox.items), record.inboxItem, text)
    {
      if record.inboxItem.Some? {
        var _ := inbox.UpdateContent(record.inboxItem.value, text);
      }
    }

    /**
     `adopt_batch_branch_inner` on a loaded handle; `merge` is git's answer.
     Errors and conflicts leave record, inbox and disk as they were.
     */
    method Adopt(index: nat, merge: BatchProtocol.Merge, inbox: InboxStore) returns (r: Result<bool, AdoptError>)
      modifies this`record, store, inbox
      ensures AdoptCheck(old(record), index).Err? ==> r == Err(AdoptCheck(old(record), index).error)
      ensures r == Ok(true) <==> AdoptCheck(old(record), index).Ok? && merge.Merged?
      ensures r.Ok? || r == Err(MergeFailed) <==>
                && old(record).status != Running && old(record).status != Adopted && old(record).status != Discarded
                && exists k :: FirstAt(old(record).branches, index, k) && old(record).branches[k].status == BranchCompleted
      ensures r.Ok? ==> r.value == merge.Merged? && merge != BatchProtocol.GitError
      ensures r == Err(MergeFailed) ==> merge == BatchProtocol.GitError
      ensures r == Err(StillRunning) <==> old(record).status == Running
      ensures r == Err(AlreadyAdopted) <==> old(record).status == Adopted
      ensures r == Err(WasDiscarded) <==> old(record).status == Discarded
      ensures r == Err(NoSuchBranch(index)) <==>
                && old(record).status != Running && old(record).status != Adopted && old(record).status != Discarded
                && forall j :: 0 <= j < |old(record).branches| ==> old(record).branches[j].index != index
      ensures forall status :: r == Err(NotCompleted(index, status)) <==>
                && old(record).status != Running && old(record).status != Adopted && old(record).status != Discarded
                && status != BranchCompleted
                && exists k :: FirstAt(old(record).branches, index, k) && old(record).branches[k].status == status
      ensures if r == Ok(true)
              then
                && record == AdoptedRecord(old(record), index) == old(record).(status := Adopted, adoptedIndex := Some(index))
                && store.files == old(store.files)[record.batchId := Readable(record)]
                && inbox.items == Refreshed(old(inbox.items), old(record).inboxItem,
                     AdoptedText(index, AdoptCheck(old(record), index).value.name,
                                 if old(record).count == 0 then 0 else old(record).count - 1))
              else record == old(record) && store.files == old(store.files) && inbox.items == old(inbox.items)
    {
      AdoptCheckMeans(record, index);
      hide FirstAt, Refreshed;
      match record.status {
        case Running => return Err(StillRunning);
        case Adopted => return Err(AlreadyAdopted);
        case Discarded => return Err(WasDiscarded);
        case _ =>
      }
      var k := FindRow(index);
      if k.None? {
        return Err(NoSuchBranch(index));
      }
      var branch := record.branches[k.value];
      if branch.status != BranchCompleted {
        return Err(NotCompleted(index, branch.status));
      }
      if merge.GitError? {
        return Err(MergeFailed);
      }
      if merge.Conflicts? {
        return Ok(false);
      }
      record := record.(status := Adopted);
      record := record.(adoptedIndex := Some(index));
      RefreshInbox(inbox, AdoptedText(index, branch.name, if record.count == 0 then 0 else record.count - 1));
      Persist();
      r := Ok(true);
    }

    /** `discard_batch_run_inner` on a loaded handle, after the cleanup returned its counts. */
    method Discard(removed: nat, skipped: nat, inbox: InboxStore) returns (ok: bool)
      modifies this`record, store, inbox
      ensures ok == DiscardAllowed(old(record)) == (old(record).status != Adopted && old(record).status != Discarded)
      ensures if ok
              then
                && record == DiscardedRecord(old(record)) == old(record).(status := Discarded)
                && store.files == old(store.files)[record.batchId := Readable(record)]
                && inbox.items == Refreshed(old(inbox.items), old(record).inboxItem, DiscardedText(removed, skipped))
              else record == old(record) && store.files == old(store.files) && inbox.items == old(inbox.items)
    {
      if record.status == Adopted || record.status == Discarded {
        return false;
      }
      record := record.(status := Discarded);
      RefreshInbox(inbox, DiscardedText(removed, skipped));
      Persist();
      ok := true;
    }
  }

  // ---- Loading -----------------------------------------------------------

  predicate ContainsDotDot(s: string) {
    exists i :: 0 <= i < |s| - 1 && s[i] == '.' && s[i + 1] == '.'
  }

  predicate ValidBatchId(id: string) {
    id != "" && '/' !in id && '\\' !in id && !ContainsDotDot(id)
  }

  /** What a refused id looks like, and that no generated one does: a UUID has hexadecimal digits and dashes only. */
  lemma ValidIdMeans(id: string)
    ensures ValidBatchId(id) <==>
            !(id == "" || '/' in id || '\\' in id || exists i :: 0 <= i < |id| - 1 && id[i] == '.' && id[i + 1] == '.')
    ensures id != "" && (forall i :: 0 <= i < |id| ==> '0' <= id[i] <= '9' || 'a' <= id[i] <= 'f' || id[i] == '-') ==> ValidBatchId(id)
  {
  }

  /** `load_record`. */
  function LoadRecord(files: map<string, DiskFile>, id: string): Result<Option<BatchRun>, LoadError> {
    if !ValidBatchId(id) then Err(InvalidId)
    else if id !in files then Ok(None)
    else match files[id]
         case Readable(record) => Ok(Some(record))
         case Unreadable => Err(ReadFailed)
  }

  /**
   What a handle writes is what a later load finds, reconciled: under its own id
   only, whatever was there before, and never under an id that names a path.
   */
  lemma WrittenLoadsBack(files: map<string, DiskFile>, record: BatchRun, id: string)
    ensures
      var after := files[record.batchId := Readable(record)];
      && (LoadRecord(after, id) == Ok(Some(record)) || LoadRecord(after, id) == LoadRecord(files, id))
      && (id == record.batchId && ValidBatchId(id) ==>
            id in ViewAfterLoad(map[], after, id) && ViewAfterLoad(map[], after, id)[id] == Reconciled(record))
      && (id != record.batchId || !ValidBatchId(id) ==> ViewAfterLoad(map[], after, id) == ViewAfterLoad(map[], files, id))
  {
    ReconcileLaws(record);
  }

  /** After a restart every batch whose id is a UUID and whose file is readable loads, reconciled. */
  lemma GeneratedIdLoads(files: map<string, DiskFile>, id: string)
    requires id != "" && forall i :: 0 <= i < |id| ==> '0' <= id[i] <= '9' || 'a' <= id[i] <= 'f' || id[i] == '-'
    requires id in files && files[id].Readable?
    ensures LoadRecord(files, id) == Ok(Some(files[id].record))
    ensures ViewAfterLoad(map[], files, id) == map[files[id].record.batchId := Reconciled(files[id].record)]
  {
    ValidIdMeans(id);
  }

  /** A load adds an entry exactly for a well-formed id with a readable file, when neither the id nor the record's is live. */
  lemma LoadRegistersIff(view: map<string, BatchRun>, files: map<string, DiskFile>, id: string)
    ensures ViewAfterLoad(view, files, id).Keys != view.Keys <==>
            && ValidBatchId(id) && id in files && files[id].Readable? && id !in view
            && files[id].record.batchId !in view
  {
    ghost var after := ViewAfterLoad(view, files, id);
    if ValidBatchId(id) && id in files && files[id].Readable? && id !in view {
      ReconcileLaws(files[id].record);
      assert after.Keys == view.Keys + {files[id].record.batchId};
    }
  }

  /** The live records after `get_or_load`: the file's name is looked up, the record's own id is registered. */
  function ViewAfterLoad(view: map<string, BatchRun>, files: map<string, DiskFile>, id: string): map<string, BatchRun> {
    if id !in view && LoadRecord(files, id).Ok? && LoadRecord(files, id).value.Some?
    then view[LoadRecord(files, id).value.value.batchId := Reconciled(LoadRecord(files, id).value.value)]
    else view
  }

  // ---- Listing -----------------------------------------------------------

  /** A directory's names, each once, in the order the system lists them. */
  ghost predicate Enumerates(names: seq<string>, files: map<string, DiskFile>) {
    && (forall id :: id in names <==> id in files)
    && forall i, j :: 0 <= i < j < |names| ==> names[i] != names[j]
  }

  /** `load_records`: a file that does not parse is skipped. */
  function ReadRecords(files: map<string, DiskFile>, names: seq<string>): seq<BatchRun>
    requires forall id :: id in names ==> id in files
  {
    if names == [] then []
    else
      var n := |names| - 1;
      ReadRecords(files, names[..n]) + if files[names[n]].Readable? then [files[names[n]].record] else []
  }

  /** The rows of the second loop of `list`, for the records read from the directory; `seen` is not extended on the way. */
  function RowsRead(seen: set<string>, records: seq<BatchRun>): seq<BatchRun> {
    if records == [] then []
    else
      var rows := RowsRead(seen, records[..|records| - 1]);
      var record := records[|records| - 1];
      if record.batchId in seen then rows else rows + [Reconciled(record)]
  }

  /** Each row is registered under its own id, later ones over earlier ones ... */
  function Registered(view: map<string, BatchRun>, rows: seq<BatchRun>): map<string, BatchRun> {
    if rows == [] then view
    else
      var row := rows[|rows| - 1];
      Registered(view, rows[..|rows| - 1])[row.batchId := row]
  }

  /** ... and written back to the file of that id, whichever file it was read from. */
  function WrittenBack(files: map<string, DiskFile>, rows: seq<BatchRun>): map<string, DiskFile> {
    if rows == [] then files
    else
      var row := rows[|rows| - 1];
      WrittenBack(files, rows[..|rows| - 1])[row.batchId := Readable(row)]
  }

  lemma {:induction false} OneMoreRow(view: map<string, BatchRun>, files: map<string, DiskFile>, rows: seq<BatchRun>, row: BatchRun)
    ensures Registered(view, rows + [row]) == Registered(view, rows)[row.batchId := row]
    ensures WrittenBack(files, rows + [row]) == WrittenBack(files, rows)[row.batchId := Readable(row)]
  {
    assert (rows + [row])[..|rows|] == rows;
  }

  lemma {:induction false} OneMoreRecord(seen: set<string>, records: seq<BatchRun>, n: nat)
    requires n < |records|
    ensures RowsRead(seen, records[..n + 1]) ==
            RowsRead(seen, records[..n]) + if records[n].batchId in seen then [] else [Reconciled(records[n])]
  {
    assert records[..n + 1][..n] == records[..n];
  }

  predicate NewestFirst(dtos: seq<BatchRun>) {
    forall i, j :: 0 <= i < j < |dtos| ==> dtos[i].createdAtMs >= dtos[j].createdAtMs
  }

  /** `sort_by(|a, b| b.created_at_ms.cmp(&a.created_at_ms))`: stable, so a row goes in front of strictly older ones only. */
  function SortNewest(dtos: seq<BatchRun>): seq<BatchRun> {
    if dtos == [] then [] else InsertNewest(dtos[|dtos| - 1], SortNewest(dtos[..|dtos| - 1]))
  }

  function InsertNewest(dto: BatchRun, dtos: seq<BatchRun>): seq<BatchRun> {
    if dtos == [] then [dto]
    else if dto.createdAtMs > dtos[0].createdAtMs then [dto] + dtos
    else [dtos[0]] + InsertNewest(dto, dtos[1..])
  }

  lemma {:induction false} InsertNewestKeeps(dto: BatchRun, dtos: seq<BatchRun>)
    ensures multiset(InsertNewest(dto, dtos)) == multiset(dtos) + multiset{dto}
  {
    if dtos != [] {
      assert dtos == [dtos[0]] + dtos[1..];
      if dto.createdAtMs <= dtos[0].createdAtMs { InsertNewestKeeps(dto, dtos[1..]); }
    }
  }

  lemma {:induction false} InsertNewestSorts(dto: BatchRun, dtos: seq<BatchRun>)
    requires NewestFirst(dtos)
    ensures NewestFirst(InsertNewest(dto, dtos))
    ensures forall k :: 0 <= k < |InsertNewest(dto, dtos)| ==>
              InsertNewest(dto, dtos)[k] == dto || (dtos != [] && InsertNewest(dto, dtos)[k].createdAtMs <= dtos[0].createdAtMs)
  {
    if dtos != [] && dto.createdAtMs <= dtos[0].createdAtMs { InsertNewestSorts(dto, dtos[1..]); }
  }

  lemma {:induction false} SortNewestMeans(dtos: seq<BatchRun>)
    ensures NewestFirst(SortNewest(dtos))
    ensures multiset(SortNewest(dtos)) == multiset(dtos)
  {
    if dtos != [] {
      var n := |dtos| - 1;
      SortNewestMeans(dtos[..n]);
      InsertNewestKeeps(dtos[n], SortNewest(dtos[..n]));
      InsertNewestSorts(dtos[n], SortNewest(dtos[..n]));
      assert dtos == dtos[..n] + [dtos[n]];
    }
  }

  function SameTime(dtos: seq<BatchRun>, t: int): seq<BatchRun> {
    if dtos == [] then []
    else (if dtos[0].createdAtMs == t then [dtos[0]] else []) + SameTime(dtos[1..], t)
  }

  lemma {:induction false} SameTimeOfSorted(dtos: seq<BatchRun>, t: int)
    requires NewestFirst(dtos) && (dtos == [] || dtos[0].createdAtMs < t)
    ensures SameTime(dtos, t) == []
  {
    if dtos != [] { SameTimeOfSorted(dtos[1..], t); }
  }

  lemma {:induction false} InsertNewestIsLast(dto: BatchRun, dtos: seq<BatchRun>, t: int)
    requires NewestFirst(dtos)
    ensures SameTime(InsertNewest(dto, dtos), t) == SameTime(dtos, t) + if dto.createdAtMs == t then [dto] else []
  {
    if dtos == [] {
      assert [dto][1..] == [];
    } else if dto.createdAtMs > dtos[0].createdAtMs {
      assert ([dto] + dtos)[1..] == dtos;
      if dto.createdAtMs == t { SameTimeOfSorted(dtos, t); }
    } else {
      InsertNewestIsLast(dto, dtos[1..], t);
      assert ([dtos[0]] + InsertNewest(dto, dtos[1..]))[1..] == InsertNewest(dto, dtos[1..]);
    }
  }

  lemma {:induction false} SameTimeAppend(dtos: seq<BatchRun>, dto: BatchRun, t: int)
    ensures SameTime(dtos + [dto], t) == SameTime(dtos, t) + if dto.createdAtMs == t then [dto] else []
  {
    if dtos == [] {
      assert [dto][1..] == [] && dtos + [dto] == [dto];
    } else {
      SameTimeAppend(dtos[1..], dto, t);
      assert (dtos + [dto])[1..] == dtos[1..] + [dto];
    }
  }

  /** Rows of one moment keep the order they came in. */
  lemma {:induction false} SortKeepsTies(dtos: seq<BatchRun>, t: int)
    ensures SameTime(SortNewest(dtos), t) == SameTime(dtos, t)
  {
    if dtos != [] {
      var n := |dtos| - 1;
      SortKeepsTies(dtos[..n], t);
      SortNewestMeans(dtos[..n]);
      InsertNewestIsLast(dtos[n], SortNewest(dtos[..n]), t);
      SameTimeAppend(dtos[..n], dtos[n], t);
      assert dtos == dtos[..n] + [dtos[n]];
    }
  }

  /** The records `view` gives the ids in `done`, each once. */
  ghost function RecordsOf(view: map<string, BatchRun>, done: set<string>): multiset<BatchRun>
    requires done <= view.Keys
  {
    multiset(set id | id in done :: view[id])
  }

  lemma AllLive(view: map<string, BatchRun>)
    ensures RecordsOf(view, view.Keys) == multiset(view.Values)
  {
    assert (set id | id in view.Keys :: view[id]) == view.Values;
  }

  lemma OneMoreLive(view: map<string, BatchRun>, done: set<string>, id: string)
    requires done <= view.Keys && id in view && id !in done
    requires forall d :: d in view ==> view[d].batchId == d
    ensures RecordsOf(view, done + {id}) == RecordsOf(view, done) + multiset{view[id]}
  {
    var before, after := set d | d in done :: view[d], set d | d in done + {id} :: view[d];
    assert view[id] !in before;
    assert after == before + {view[id]};
  }

  /** No live handle was replaced. */
  ghost predicate HandlesKept(before: map<string, BatchRunHandle>, after: map<string, BatchRunHandle>) {
    forall d :: d in before ==> d in after && after[d] == before[d]
  }

  class BatchRunRegistry {
    var runs: map<string, BatchRunHandle>
    const store: RecordStore

    constructor (store: RecordStore)
      ensures Valid() && runs == map[] && this.store == store && View() == map[]
    {
      this.store := store;
      runs := map[];
    }

    /** Handles sit under their record's id and share the store. */
    ghost predicate Valid()
      reads this, runs.Values
    {
      forall id :: id in runs ==> runs[id].record.batchId == id && runs[id].store == store
    }

    ghost function View(): map<string, BatchRun>
      reads this, runs.Values
    {
      map id | id in runs :: runs[id].record
    }

    method Register(record: BatchRun) returns (handle: BatchRunHandle)
      requires Valid()
      modifies this`runs
      ensures Valid() && fresh(handle)
      ensures runs == old(runs)[record.batchId := handle]
      ensures handle.record == record && handle.store == store
      ensures View() == old(View())[record.batchId := record]
    {
      handle := new BatchRunHandle(record, store);
      runs := runs[record.batchId := handle];
    }

    /**
     A live handle wins; otherwise the disk record is reconciled and registered
     under its own id, but not written back.
     */
    method GetOrLoad(id: string) returns (r: Result<BatchRunHandle, LoadError>)
      requires Valid()
      modifies this`runs
      ensures Valid()
      ensures View() == ViewAfterLoad(old(View()), store.files, id)
      ensures id in old(runs) ==> r == Ok(old(runs)[id]) && runs == old(runs)
      ensures id !in old(runs) && r.Ok? ==>
                && fresh(r.value) && id in store.files && store.files[id].Readable?
                && r.value.record == Reconciled(store.files[id].record)
                && runs == old(runs)[store.files[id].record.batchId := r.value]
      ensures r.Ok? <==> id in old(runs) || (LoadRecord(store.files, id).Ok? && LoadRecord(store.files, id).value.Some?)
      ensures r.Err? ==>
                && runs == old(runs)
                && r.error == (if LoadRecord(store.files, id).Err? then LoadRecord(store.files, id).error else NotFound)
      ensures id !in old(runs) ==>
                (r == Err(InvalidId) <==>
                   id == "" || '/' in id || '\\' in id || exists i :: 0 <= i < |id| - 1 && id[i] == '.' && id[i + 1] == '.')
      ensures id !in old(runs) && r != Err(InvalidId) ==>
                && (r == Err(NotFound) <==> id !in store.files)
                && (r == Err(ReadFailed) <==> id in store.files && store.files[id].Unreadable?)
                && (r.Ok? <==> id in store.files && store.files[id].Readable?)
    {
      ValidIdMeans(id);
      if id in runs {
        return Ok(runs[id]);
      }
      var loaded := LoadRecord(store.files, id);
      if loaded.Err? {
        return Err(loaded.error);
      }
      if loaded.value.None? {
        return Err(NotFound);
      }
      var record := ReconcileRestart(loaded.value.value);
      ReconcileLaws(loaded.value.value);
      var handle := Register(record);
      r := Ok(handle);
    }

    /** The first loop of `list`: the rows of the live handles. */
    method LiveRows() returns (dtos: seq<BatchRun>)
      requires Valid()
      ensures multiset(dtos) == multiset(View().Values)
    {
      dtos := [];
      var todo := runs.Keys;
      ghost var done: set<string> := {};
      while todo != {}
        invariant done !! todo && done + todo == runs.Keys == View().Keys
        invariant multiset(dtos) == RecordsOf(View(), done)
      {
        var id :| id in todo;
        OneMoreLive(View(), done, id);
        dtos := dtos + [runs[id].record];
        todo := todo - {id};
        done := done + {id};
      }
      assert done == View().Keys;
      AllLive(View());
    }

    /** One disk record: reconcile, register, write back. */
    method RegisterFromDisk(record: BatchRun) returns (dto: BatchRun)
      requires Valid()
      modifies this`runs, store
      ensures Valid()
      ensures dto == Reconciled(record) && dto.batchId == record.batchId
      ensures forall d :: d in old(runs) && d != record.batchId ==> d in runs && runs[d] == old(runs)[d]
      ensures View() == old(View())[dto.batchId := dto]
      ensures store.files == old(store.files)[dto.batchId := Readable(dto)]
    {
      var reconciled := ReconcileRestart(record);
      ReconcileLaws(record);
      var handle := Register(reconciled);
      handle.Persist();
      dto := handle.record;
    }

    /** The second loop of `list`, over the records read from the directory. */
    method DiskRows(seen: set<string>, records: seq<BatchRun>) returns (dtos: seq<BatchRun>)
      requires Valid() && seen == runs.Keys
      modifies this`runs, store
      ensures Valid() && HandlesKept(old(runs), runs)
      ensures dtos == RowsRead(seen, records)
      ensures View() == Registered(old(View()), dtos)
      ensures store.files == WrittenBack(old(store.files), dtos)
      ensures old(View()).Keys == seen
    {
      hide RowsRead, Registered, WrittenBack;
      NothingRead(seen, View(), store.files);
      dtos := [];
      assert records[..0] == [];
      for n := 0 to |records|
        invariant Valid() && HandlesKept(old(runs), runs) && seen == old(runs).Keys
        invariant dtos == RowsRead(seen, records[..n])
        invariant View() == Registered(old(View()), dtos)
        invariant store.files == WrittenBack(old(store.files), dtos)
      {
        OneMoreRecord(seen, records, n);
        if records[n].batchId !in seen {
          OneMoreRow(old(View()), old(store.files), dtos, Reconciled(records[n]));
          var dto := RegisterFromDisk(records[n]);
          dtos := dtos + [dto];
        }
      }
      assert records[..|records|] == records;
    }

    /**
     All runs, newest first: every live one as it is, and every readable record
     on disk whose id is not live reconciled, registered and written back. `names`
     is the order of the directory; a file may carry any id.
     */
    method List(names: seq<string>) returns (dtos: seq<BatchRun>)
      requires Valid() && Enumerates(names, store.files)
      modifies this`runs, store
      ensures Valid() && HandlesKept(old(runs), runs)
      ensures View() == ViewAfterList(old(View()), old(store.files), names)
      ensures store.files == FilesAfterList(old(View()), old(store.files), names)
      ensures NewestFirst(dtos)
      ensures multiset(dtos) == multiset(old(View()).Values) + multiset(ListedRows(old(View()), old(store.files), names))
      ensures exists live :: multiset(live) == multiset(old(View()).Values)
                && forall t :: SameTime(dtos, t) == SameTime(live + ListedRows(old(View()), old(store.files), names), t)
    {
      hide RowsRead, ReadRecords, Registered, WrittenBack, NewestFirst, SortNewest;
      var live := LiveRows();
      var loaded := DiskRows(runs.Keys, ReadRecords(store.files, names));
      SortNewestMeans(live + loaded);
      forall t
        ensures SameTime(SortNewest(live + loaded), t) == SameTime(live + loaded, t)
      {
        SortKeepsTies(live + loaded, t);
      }
      dtos := SortNewest(live + loaded);
    }
  }

  lemma NothingRead(seen: set<string>, view: map<string, BatchRun>, files: map<string, DiskFile>)
    ensures RowsRead(seen, []) == [] && Registered(view, []) == view && WrittenBack(files, []) == files
  {
  }

  /** What `list` reads from the directory and takes over. */
  function ListedRows(view: map<string, BatchRun>, files: map<string, DiskFile>, names: seq<string>): seq<BatchRun>
    requires forall id :: id in names ==> id in files
  {
    RowsRead(view.Keys, ReadRecords(files, names))
  }

  function ViewAfterList(view: map<string, BatchRun>, files: map<string, DiskFile>, names: seq<string>): map<string, BatchRun>
    requires forall id :: id in names ==> id in files
  {
    Registered(view, ListedRows(view, files, names))
  }

  function FilesAfterList(view: map<string, BatchRun>, files: map<string, DiskFile>, names: seq<string>): map<string, DiskFile>
    requires forall id :: id in names ==> id in files
  {
    WrittenBack(files, ListedRows(view, files, names))
  }

  // ---- Files that carry another file's id ----------------------------------

  function CountOf(records: seq<BatchRun>, id: string): nat {
    if records == [] then 0
    else CountOf(records[..|records| - 1], id) + if records[|records| - 1].batchId == id then 1 else 0
  }

  /** The last record read that carries the id. */
  function LastRead(records: seq<BatchRun>, id: string): Option<BatchRun> {
    if records == [] then None
    else if records[|records| - 1].batchId == id then Some(records[|records| - 1])
    else LastRead(records[..|records| - 1], id)
  }

  function At<T>(m: map<string, T>, id: string): Option<T> {
    if id in m then Some(m[id]) else None
  }

  lemma {:induction false} OneMoreRead(records: seq<BatchRun>, record: BatchRun, id: string)
    ensures CountOf(records + [record], id) == CountOf(records, id) + if record.batchId == id then 1 else 0
    ensures LastRead(records + [record], id) == if record.batchId == id then Some(record) else LastRead(records, id)
  {
    assert (records + [record])[..|records|] == records;
  }

  /**
   `seen` is not extended as the loop goes on: a run without a live handle gets
   one row per file that carries its id, so exactly one only while no copied
   file does.
   */
  lemma {:induction false} RowsPerRun(seen: set<string>, records: seq<BatchRun>, id: string)
    ensures CountOf(RowsRead(seen, records), id) == if id in seen then 0 else CountOf(records, id)
  {
    if records != [] {
      var n := |records| - 1;
      RowsPerRun(seen, records[..n], id);
      ReconcileLaws(records[n]);
      OneMoreRead(RowsRead(seen, records[..n]), Reconciled(records[n]), id);
    }
  }

  /**
   Of the files that carry an id without a live handle, the one read last decides
   both the registered record and the file of that id; every other entry and
   file stays.
   */
  lemma {:induction false} LastReadWins(view: map<string, BatchRun>, files: map<string, DiskFile>, seen: set<string>, records: seq<BatchRun>, id: string)
    ensures
      var rows, last := RowsRead(seen, records), LastRead(records, id);
      if id in seen || last.None?
      then At(Registered(view, rows), id) == At(view, id) && At(WrittenBack(files, rows), id) == At(files, id)
      else
        && At(Registered(view, rows), id) == Some(Reconciled(last.value))
        && At(WrittenBack(files, rows), id) == Some(Readable(Reconciled(last.value)))
  {
    if records != [] {
      var n := |records| - 1;
      LastReadWins(view, files, seen, records[..n], id);
      ReconcileLaws(records[n]);
      if records[n].batchId !in seen {
        OneMoreRow(view, files, RowsRead(seen, records[..n]), Reconciled(records[n]));
      }
    }
  }

  /** Witness: an older copy under another name, read last, replaces the record and its file, and the run is listed twice. */
  lemma CopyReplacesRecord(record: BatchRun, copy: BatchRun) returns (files: map<string, DiskFile>, names: seq<string>)
    requires copy.batchId == record.batchId != "copy" && Reconciled(copy) != Reconciled(record)
    ensures files == map[record.batchId := Readable(record), "copy" := Readable(copy)] && Enumerates(names, files)
    ensures At(ViewAfterList(map[], files, names), record.batchId) == Some(Reconciled(copy))
    ensures At(FilesAfterList(map[], files, names), record.batchId) == Some(Readable(Reconciled(copy)))
    ensures CountOf(ListedRows(map[], files, names), record.batchId) == 2
  {
    files := map[record.batchId := Readable(record), "copy" := Readable(copy)];
    names := [record.batchId, "copy"];
    ReadTwo(files, record.batchId, "copy");
    var view: map<string, BatchRun> := map[];
    var records := [record] + [copy];
    assert ReadRecords(files, names) == records;
    OneMoreRead([], record, record.batchId);
    OneMoreRead([record], copy, record.batchId);
    assert [] + [record] == [record];
    LastReadWins(view, files, view.Keys, records, record.batchId);
    RowsPerRun(view.Keys, records, record.batchId);
    hide RowsRead, Registered, WrittenBack, ReadRecords, CountOf, LastRead, Reconciled;
  }

  lemma {:induction false} ReadTwo(files: map<string, DiskFile>, a: string, b: string)
    requires a in files && b in files && files[a].Readable? && files[b].Readable?
    ensures ReadRecords(files, [a, b]) == [files[a].record, files[b].record]
  {
    assert [a, b][..1] == [a] && [a][..0] == [];
    assert ReadRecords(files, [a]) == [files[a].record];
  }

  /** Every readable file carries the id it is named after. */
  ghost predicate OwnFiles(files: map<string, DiskFile>) {
    forall id :: id in files && files[id].Readable? ==> files[id].record.batchId == id
  }

  /** In such a store each id is read at most once, from its own file, whatever the order. */
  lemma {:induction false} ReadOnce(files: map<string, DiskFile>, names: seq<string>, id: string)
    requires OwnFiles(files) && forall d :: d in names ==> d in files
    requires forall i, j :: 0 <= i < j < |names| ==> names[i] != names[j]
    ensures
      var records := ReadRecords(files, names);
      if id in names && files[id].Readable?
      then CountOf(records, id) == 1 && LastRead(records, id) == Some(files[id].record)
      else CountOf(records, id) == 0 && LastRead(records, id) == None
  {
    if names != [] {
      var n := |names| - 1;
      ReadOnce(files, names[..n], id);
      assert names == names[..n] + [names[n]];
      assert names[n] !in names[..n];
      var before := ReadRecords(files, names[..n]);
      if files[names[n]].Readable? {
        OneMoreRead(before, files[names[n]].record, id);
      } else {
        assert ReadRecords(files, names) == before;
      }
    }
  }

  /** There `list` takes over exactly the readable records without a live handle, one row each, in any order of the directory. */
  lemma OwnFilesListOnce(view: map<string, BatchRun>, files: map<string, DiskFile>, names: seq<string>, id: string)
    requires OwnFiles(files) && Enumerates(names, files)
    ensures
      if id !in view && id in files && files[id].Readable?
      then
        && CountOf(ListedRows(view, files, names), id) == 1
        && At(ViewAfterList(view, files, names), id) == Some(Reconciled(files[id].record))
        && At(FilesAfterList(view, files, names), id) == Some(Readable(Reconciled(files[id].record)))
      else
        && CountOf(ListedRows(view, files, names), id) == 0
        && At(ViewAfterList(view, files, names), id) == At(view, id)
        && At(FilesAfterList(view, files, names), id) == At(files, id)
  {
    var records := ReadRecords(files, names);
    ReadOnce(files, names, id);
    RowsPerRun(view.Keys, records, id);
    LastReadWins(view, files, view.Keys, records, id);
  }

  // ---- The registry refines the protocol ----------------------------------

  /** One id's live record and file are the memory and disk sides of the protocol's batch. */
  ghost predicate RepresentsAt(batches: map<string, BatchProtocol.BatchState>, view: map<string, BatchRun>,
                               files: map<string, DiskFile>, id: string)
  {
    && (id in batches ==> ValidBatchId(id))
    && (id in view <==> id in batches && batches[id].mem.Some?)
    && (id in view ==> batches[id].mem.value == view[id] && view[id].batchId == id)
    && (id in files <==> id in batches && batches[id].disk.Some?)
    && (id in files ==> files[id] == Readable(batches[id].disk.value) && files[id].record.batchId == id)
  }

  ghost predicate Represents(batches: map<string, BatchProtocol.BatchState>, view: map<string, BatchRun>,
                             files: map<string, DiskFile>)
  {
    forall id :: RepresentsAt(batches, view, files, id)
  }

  /** What `List` promises is the protocol's list step, in any order of the directory. */
  lemma ListRefines(s: BatchProtocol.System, view: map<string, BatchRun>, files: map<string, DiskFile>, names: seq<string>)
    requires Represents(s.batches, view, files) && Enumerates(names, files)
    ensures Represents(BatchProtocol.Next(s, BatchProtocol.List).batches, ViewAfterList(view, files, names), FilesAfterList(view, files, names))
  {
    var s' := BatchProtocol.Next(s, BatchProtocol.List);
    var view', files' := ViewAfterList(view, files, names), FilesAfterList(view, files, names);
    assert OwnFiles(files) by {
      forall id | id in files && files[id].Readable?
        ensures files[id].record.batchId == id
      {
        assert RepresentsAt(s.batches, view, files, id);
      }
    }
    forall id
      ensures RepresentsAt(s'.batches, view', files', id)
    {
      assert RepresentsAt(s.batches, view, files, id);
      OwnFilesListOnce(view, files, names, id);
      assert At(view', id).Some? <==> id in view';
      assert At(files', id).Some? <==> id in files';
      if id in s.batches && s.batches[id].disk.Some? { ReconcileLaws(s.batches[id].disk.value); }
    }
  }

  /** What `GetOrLoad` promises is the protocol's load step. */
  lemma LoadRefines(s: BatchProtocol.System, view: map<string, BatchRun>, files: map<string, DiskFile>, id: string)
    requires Represents(s.batches, view, files)
    ensures Represents(BatchProtocol.Next(s, BatchProtocol.GetOrLoad(id)).batches, ViewAfterLoad(view, files, id), files)
  {
    forall d ensures RepresentsAt(BatchProtocol.Next(s, BatchProtocol.GetOrLoad(id)).batches, ViewAfterLoad(view, files, id), files, d) {
      assert RepresentsAt(s.batches, view, files, d) && RepresentsAt(s.batches, view, files, id);
    }
  }

  /** What a handle's `FinalizeBranch` promises is the protocol's terminal write. */
  lemma FinalizeRefines(s: BatchProtocol.System, view: map<string, BatchRun>, files: map<string, DiskFile>,
                        id: string, i: nat, summary: Option<DiffSummary>, appendOk: bool)
    requires Represents(s.batches, view, files)
    requires BatchProtocol.LiveTask(s, id, i) && BatchProtocol.TaskAt(s, id, i).Observed? && id in view
    ensures
      var write := FinalizeWrite(view[id], s.inbox, i, BatchProtocol.TaskAt(s, id, i).obs, summary, appendOk);
      var s' := BatchProtocol.Next(s, BatchProtocol.FinalizeBranch(id, i, summary, appendOk));
      && s'.inbox == write.inbox
      && Represents(s'.batches, view[id := write.record], files[id := Readable(write.record)])
  {
    assert RepresentsAt(s.batches, view, files, id);
    var s' := BatchProtocol.Next(s, BatchProtocol.FinalizeBranch(id, i, summary, appendOk));
    var record := s'.batches[id].mem.value;
    var view', files' := view[id := record], files[id := Readable(record)];
    forall d ensures RepresentsAt(s'.batches, view', files', d) {
      assert RepresentsAt(s.batches, view, files, d);
    }
  }

  lemma SettleRefines(s: BatchProtocol.System, view: map<string, BatchRun>, files: map<string, DiskFile>, id: string,
                      batches: map<string, BatchProtocol.BatchState>, record: BatchRun)
    requires Represents(s.batches, view, files) && id in s.batches && record.batchId == id
    requires batches == s.batches[id := BatchProtocol.Persist(BatchProtocol.Loaded(s.batches[id]), record)]
    ensures Represents(batches, ViewAfterLoad(view, files, id)[id := record], files[id := Readable(record)])
  {
    var view', files' := ViewAfterLoad(view, files, id)[id := record], files[id := Readable(record)];
    forall d ensures RepresentsAt(batches, view', files', d) {
      assert RepresentsAt(s.batches, view, files, d) && RepresentsAt(s.batches, view, files, id);
    }
  }

  /** `GetOrLoad` followed by the handle's `Adopt` is the protocol's adopt step. */
  lemma AdoptRefines(s: BatchProtocol.System, view: map<string, BatchRun>, files: map<string, DiskFile>,
                     id: string, index: nat, merge: BatchProtocol.Merge)
    requires Represents(s.batches, view, files) && id in ViewAfterLoad(view, files, id) && id in s.batches
    ensures
      var loaded := ViewAfterLoad(view, files, id);
      var s' := BatchProtocol.Next(s, BatchProtocol.Adopt(id, index, merge));
      if AdoptCheck(loaded[id], index).Ok? && merge.Merged?
      then
        && Represents(s'.batches, loaded[id := AdoptedRecord(loaded[id], index)],
                      files[id := Readable(AdoptedRecord(loaded[id], index))])
        && s'.inbox == Refreshed(s.inbox, loaded[id].inboxItem,
             AdoptedText(index, AdoptCheck(loaded[id], index).value.name, if loaded[id].count == 0 then 0 else loaded[id].count - 1))
      else Represents(s'.batches, loaded, files) && s'.inbox == s.inbox
  {
    assert RepresentsAt(s.batches, view, files, id);
    var s' := BatchProtocol.Next(s, BatchProtocol.Adopt(id, index, merge));
    var loaded := ViewAfterLoad(view, files, id);
    assert BatchProtocol.Loaded(s.batches[id]).mem == Some(loaded[id]);
    if AdoptCheck(loaded[id], index).Ok? && merge.Merged? {
      SettleRefines(s, view, files, id, s'.batches, AdoptedRecord(loaded[id], index));
    } else {
      LoadRefines(s, view, files, id);
      assert s'.batches == BatchProtocol.Next(s, BatchProtocol.GetOrLoad(id)).batches;
    }
  }

  /** `GetOrLoad` followed by the handle's `Discard` is the protocol's discard step. */
  lemma DiscardRefines(s: BatchProtocol.System, view: map<string, BatchRun>, files: map<string, DiskFile>,
                       id: string, removed: nat, skipped: nat)
    requires Represents(s.batches, view, files) && id in ViewAfterLoad(view, files, id) && id in s.batches
    ensures
      var loaded := ViewAfterLoad(view, files, id);
      var s' := BatchProtocol.Next(s, BatchProtocol.Discard(id, removed, skipped));
      if DiscardAllowed(loaded[id])
      then
        && Represents(s'.batches, loaded[id := DiscardedRecord(loaded[id])], files[id := Readable(DiscardedRecord(loaded[id]))])
        && s'.inbox == Refreshed(s.inbox, loaded[id].inboxItem, DiscardedText(removed, skipped))
      else Represents(s'.batches, loaded, files) && s'.inbox == s.inbox
  {
    assert RepresentsAt(s.batches, view, files, id);
    var s' := BatchProtocol.Next(s, BatchProtocol.Discard(id, removed, skipped));
    var loaded := ViewAfterLoad(view, files, id);
    assert BatchProtocol.Loaded(s.batches[id]).mem == Some(loaded[id]);
    if DiscardAllowed(loaded[id]) {
      SettleRefines(s, view, files, id, s'.batches, DiscardedRecord(loaded[id]));
    } else {
      LoadRefines(s, view, files, id);
      assert s'.batches == BatchProtocol.Next(s, BatchProtocol.GetOrLoad(id)).batches;
    }
  }
}
