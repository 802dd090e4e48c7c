/**
 The CLI view model: threads, picker and transcripts (crates/liz-cli/src/view_model.rs).

 `View` is the value of the fields that the thread list, the picker and the transcripts are
 made of. The lemmas here say what each operation owes to the thread list, the status map and
 the picker; the class updates the fields in place, each method computing a function of the view.
 */
module ViewModels {
  import opened Common
  import opened StableSort
  import opened Threads

  datatype EntryKind = User | Assistant | Tool | Approval | System
  datatype Entry = Entry(kind: EntryKind, body: string)

  type Transcripts = map<ThreadId, seq<Entry>>

  datatype View = View(
    statuses: map<ThreadId, ThreadStatus>,
    threads: seq<Thread>,
    selected: nat,
    active: Option<ThreadId>,
    visible: seq<Entry>,
    transcripts: Transcripts,
    pendingStart: seq<Entry>,
    streaming: Option<string>)

  const EMPTY := View(map[], [], 0, None, [], map[], [], None)

  // ---------------------------------------------------------------------------------------
  // Text
  // ---------------------------------------------------------------------------------------

  function TrimStart(s: string): string {
    if s != "" && IsSpace(s[0]) then TrimStart(s[1..]) else s
  }

  function TrimEnd(s: string): string {
    if s != "" && IsSpace(s[|s| - 1]) then TrimEnd(s[..|s| - 1]) else s
  }

  function Trim(s: string): string {
    TrimEnd(TrimStart(s))
  }

  function StripPrefix(s: string, prefix: string): string {
    if prefix <= s then s[|prefix|..] else s
  }

  // ---------------------------------------------------------------------------------------
  // Transcripts
  // ---------------------------------------------------------------------------------------

  function LastThree(entries: seq<Entry>): seq<Entry> {
    if |entries| <= 3 then entries else entries[|entries| - 3..]
  }

  function PushDeduped(entries: seq<Entry>, entry: Entry): seq<Entry> {
    if IsBlank(entry.body) || entry in LastThree(entries) then entries else entries + [entry]
  }

  function PushAll(entries: seq<Entry>, more: seq<Entry>): seq<Entry> {
    if more == [] then entries else PushDeduped(PushAll(entries, more[..|more| - 1]), more[|more| - 1])
  }

  function Stored(transcripts: Transcripts, id: ThreadId): seq<Entry> {
    if id in transcripts then transcripts[id] else []
  }

  /** One recorded session event, as the memory view lists it. */
  datatype SessionEntry = SessionEntry(event: string, summary: string)

  function EntryFromSession(e: SessionEntry): Option<Entry> {
    var body := Trim(e.summary);
    if body == "" then None
    else if e.event == "turn_started" then Some(Entry(User, StripPrefix(body, "Started turn for: ")))
    else if e.event == "turn_completed" then Some(Entry(Assistant, body))
    else if e.event == "tool_completed" then Some(Entry(Tool, body))
    else if e.event == "approval_wait" then Some(Entry(Approval, body))
    else if e.event == "approval_resolved" then Some(Entry(System, body))
    else if e.event == "turn_cancelled" then Some(Entry(System, "Interrupted: " + body))
    else if e.event == "turn_failed" then Some(Entry(System, "Turn failed: " + body))
    else Some(Entry(System, body))
  }

  function History(recent: seq<SessionEntry>): seq<Entry> {
    if recent == [] then []
    else
      var e := EntryFromSession(recent[|recent| - 1]);
      History(recent[..|recent| - 1]) + if e.Some? then [e.value] else []
  }

  // ---------------------------------------------------------------------------------------
  // The operations, on values
  // ---------------------------------------------------------------------------------------

  function Synced(v: View): View {
    v.(visible := if v.active.Some? then Stored(v.transcripts, v.active.value) else [])
  }

  function PickedId(v: View): Option<ThreadId> {
    if v.selected < |v.threads| then Some(v.threads[v.selected].id) else None
  }

  /** Replace the first thread with the same id, or append. */
  function Updated(threads: seq<Thread>, t: Thread): seq<Thread> {
    var i := Position(threads, t.id);
    if i < |threads| then threads[i := t] else threads + [t]
  }

  function IndexOf(threads: seq<Thread>, id: Option<ThreadId>): nat {
    if id.Some? && Position(threads, id.value) < |threads| then Position(threads, id.value) else 0
  }

  function AfterUpsert(v: View, t: Thread): View {
    var threads := Sort(Updated(v.threads, t), Staleness);
    var picked := if PickedId(v).Some? then PickedId(v) else Some(t.id);
    Synced(v.(active := if v.active.Some? then v.active else Some(t.id),
              statuses := v.statuses[t.id := t.status], threads := threads, selected := IndexOf(threads, picked)))
  }

  function StatusesOf(threads: seq<Thread>): map<ThreadId, ThreadStatus> {
    if threads == [] then map[]
    else StatusesOf(threads[..|threads| - 1])[threads[|threads| - 1].id := threads[|threads| - 1].status]
  }

  function AfterList(v: View, threads: seq<Thread>): View {
    var active := if v.active.Some? && HasId(threads, v.active.value) then v.active else None;
    Synced(v.(threads := threads, statuses := StatusesOf(threads), active := active,
              selected := IndexOf(threads, PickedId(v))))
  }

  function AfterAttach(v: View, id: ThreadId): View {
    if v.pendingStart == [] then Synced(v)
    else Synced(v.(transcripts := v.transcripts[id := PushAll(Stored(v.transcripts, id), v.pendingStart)],
        pendingStart := []))
  }

  function AfterStart(v: View, t: Thread): View {
    AfterAttach(AfterUpsert(v.(active := Some(t.id)), t), t.id)
  }

  /** Resume and fork. */
  function AfterOpen(v: View, t: Thread): View {
    Synced(AfterUpsert(v.(active := Some(t.id)), t))
  }

  function AfterPush(v: View, id: ThreadId, entry: Entry): View {
    var pushed := v.(transcripts := v.transcripts[id := PushDeduped(Stored(v.transcripts, id), entry)]);
    if v.active == Some(id) then Synced(pushed) else pushed
  }

  function AfterPushSelected(v: View, entry: Entry): View {
    if v.active.Some? then AfterPush(v, v.active.value, entry)
    else v.(visible := PushDeduped(v.visible, entry))
  }

  function AfterPending(v: View, message: string): View {
    var pending := PushDeduped(v.pendingStart, Entry(User, message));
    v.(pendingStart := pending, visible := pending)
  }

  function AfterHistory(v: View, id: ThreadId, recent: seq<SessionEntry>): View {
    var replaced := v.(transcripts := v.transcripts[id := PushAll(History(recent), Stored(v.transcripts, id))]);
    if v.active == Some(id) then Synced(replaced) else replaced
  }

  function AfterPickPrevious(v: View): View {
    if v.threads == [] then v.(selected := 0)
    else v.(selected := if v.selected == 0 then |v.threads| - 1 else v.selected - 1)
  }

  function AfterPickNext(v: View): View {
    if v.threads == [] then v.(selected := 0) else v.(selected := (v.selected + 1) % |v.threads|)
  }

  function AfterActivate(v: View): View {
    if PickedId(v).None? then v else Synced(v.(active := PickedId(v)))
  }

  function AfterChunk(v: View, chunk: string): View {
    v.(streaming := Some(v.streaming.Or("") + chunk))
  }

  function AfterCompletion(v: View, id: ThreadId, message: string): View {
    AfterPush(v.(streaming := None), id, Entry(Assistant, message))
  }

  // ---------------------------------------------------------------------------------------
  // The thread list, the status map and the picker
  // ---------------------------------------------------------------------------------------

  ghost predicate StatusesMatch(statuses: map<ThreadId, ThreadStatus>, threads: seq<Thread>) {
    && (forall t <- threads :: t.id in statuses && statuses[t.id] == t.status)
    && (forall id <- statuses :: HasId(threads, id))
  }

  ghost predicate FieldsAgree(threads: seq<Thread>, statuses: map<ThreadId, ThreadStatus>, selected: nat,
      active: Option<ThreadId>) {
    && UniqueBy(threads, IdOf)
    && StatusesMatch(statuses, threads)
    && (if threads == [] then selected == 0 else selected < |threads|)
    && (active.Some? ==> HasId(threads, active.value))
  }

  ghost predicate ListInv(v: View) {
    FieldsAgree(v.threads, v.statuses, v.selected, v.active)
  }

  lemma PositionFinds(threads: seq<Thread>, id: ThreadId)
    ensures Position(threads, id) < |threads| <==> HasId(threads, id)
  {
  }

  lemma UpdatedIsUnique(threads: seq<Thread>, t: Thread)
    requires UniqueBy(threads, IdOf)
    ensures UniqueBy(Updated(threads, t), IdOf)
    ensures forall u :: u in Updated(threads, t) <==> u == t || (u in threads && u.id != t.id)
  {
    var i := Position(threads, t.id);
    var updated := Updated(threads, t);
    if i < |threads| {
      forall u ensures u in updated <==> u == t || (u in threads && u.id != t.id) {
        if u in updated && u != t {
          var k :| 0 <= k < |updated| && updated[k] == u;
          assert IdOf(threads[k]) != IdOf(threads[i]);
        }
        if u in threads && u.id != t.id {
          var k :| 0 <= k < |threads| && threads[k] == u;
          assert updated[k] == u;
        }
        assert updated[i] == t;
      }
    }
  }

  lemma UpsertedList(threads: seq<Thread>, t: Thread)
    requires UniqueBy(threads, IdOf)
    ensures var sorted := Sort(Updated(threads, t), Staleness);
      && UniqueBy(sorted, IdOf) && SortedBy(sorted, Staleness)
      && (forall u :: u in sorted <==> u == t || (u in threads && u.id != t.id))
      && |sorted| == if HasId(threads, t.id) then |threads| else |threads| + 1
  {
    UpdatedIsUnique(threads, t);
    SortKeepsUnique(Updated(threads, t), Staleness, IdOf);
    SortIsStableSort(Updated(threads, t), Staleness);
    SortKeepsElements(Updated(threads, t), Staleness);
    PositionFinds(threads, t.id);
  }

  lemma SortedByStaleness(threads: seq<Thread>)
    requires SortedBy(threads, Staleness)
    ensures forall i, j | 0 <= i < j < |threads| :: threads[i].updatedAt >= threads[j].updatedAt
  {
    forall i, j | 0 <= i < j < |threads| ensures threads[i].updatedAt >= threads[j].updatedAt {
      assert Staleness(threads[i]) <= Staleness(threads[j]);
    }
  }

  lemma IndexOfListed(threads: seq<Thread>, id: ThreadId)
    requires HasId(threads, id)
    ensures IndexOf(threads, Some(id)) < |threads| && threads[IndexOf(threads, Some(id))].id == id
  {
    PositionFinds(threads, id);
  }

  /**
   `upsert_thread` leaves the list sorted, most recently updated first, with the thread's new
   value in and every other thread as it was, and the picker on the thread it was on.
   */
  lemma UpsertSortsAndKeepsPicker(v: View, t: Thread)
    requires UniqueBy(v.threads, IdOf) && (v.threads == [] || v.selected < |v.threads|)
    ensures var w := AfterUpsert(v, t);
      && (forall i, j | 0 <= i < j < |w.threads| :: w.threads[i].updatedAt >= w.threads[j].updatedAt)
      && (forall u :: u in w.threads <==> u == t || (u in v.threads && u.id != t.id))
      && PickedId(w) == if v.threads == [] then Some(t.id) else PickedId(v)
  {
    var listed := Sort(Updated(v.threads, t), Staleness);
    UpsertedList(v.threads, t);
    SortedByStaleness(listed);
    var picked := if v.threads == [] then t else v.threads[v.selected];
    assert if picked.id == t.id then t in listed else picked in listed;
    IndexOfListed(listed, picked.id);
  }

  lemma UpsertKeepsStatuses(statuses: map<ThreadId, ThreadStatus>, threads: seq<Thread>, t: Thread, listed: seq<Thread>)
    requires StatusesMatch(statuses, threads)
    requires forall u :: u in listed <==> u == t || (u in threads && u.id != t.id)
    ensures StatusesMatch(statuses[t.id := t.status], listed)
    ensures forall id | HasId(threads, id) || id == t.id :: HasId(listed, id)
  {
    assert t in listed;
    forall id | HasId(threads, id) || id == t.id ensures HasId(listed, id) {
      if id != t.id {
        var u :| u in threads && u.id == id;
        assert u in listed;
      }
    }
  }

  lemma UpsertKeepsListInv(v: View, t: Thread)
    requires UniqueBy(v.threads, IdOf) && StatusesMatch(v.statuses, v.threads)
    requires v.active.Some? ==> v.active.value == t.id || HasId(v.threads, v.active.value)
    ensures ListInv(AfterUpsert(v, t))
  {
    var listed := Sort(Updated(v.threads, t), Staleness);
    UpsertedList(v.threads, t);
    UpsertKeepsStatuses(v.statuses, v.threads, t, listed);
    assert t in listed;
  }

  lemma LastIdIsNew(front: seq<Thread>, last: Thread)
    requires UniqueBy(front + [last], IdOf)
    ensures UniqueBy(front, IdOf) && forall t <- front :: t.id != last.id
  {
    var threads := front + [last];
    forall i | 0 <= i < |front| ensures front[i].id != last.id {
      assert IdOf(threads[i]) != IdOf(threads[|front|]);
    }
    forall i, j | 0 <= i < j < |front| ensures IdOf(front[i]) != IdOf(front[j]) {
      assert IdOf(threads[i]) != IdOf(threads[j]);
    }
  }

  lemma {:induction false} StatusesOfMatch(threads: seq<Thread>)
    requires UniqueBy(threads, IdOf)
    ensures StatusesMatch(StatusesOf(threads), threads)
  {
    if threads != [] {
      var front, last := threads[..|threads| - 1], threads[|threads| - 1];
      assert threads == front + [last];
      LastIdIsNew(front, last);
      StatusesOfMatch(front);
      UpsertKeepsStatuses(StatusesOf(front), front, last, threads);
    }
  }

  lemma OpeningKeepsListInv(v: View, t: Thread)
    requires ListInv(v)
    ensures ListInv(AfterStart(v, t)) && ListInv(AfterOpen(v, t))
  {
    UpsertKeepsListInv(v.(active := Some(t.id)), t);
  }

  lemma PickingKeepsListInv(v: View)
    requires ListInv(v)
    ensures ListInv(AfterPickPrevious(v)) && ListInv(AfterPickNext(v)) && ListInv(AfterActivate(v))
  {
    assert PickedId(v).Some? ==> v.threads[v.selected] in v.threads;
  }

  lemma ListingKeepsListInv(v: View, threads: seq<Thread>)
    requires UniqueBy(threads, IdOf)
    ensures ListInv(AfterList(v, threads))
  {
    StatusesOfMatch(threads);
  }

  // ---------------------------------------------------------------------------------------
  // The class
  // ---------------------------------------------------------------------------------------

  class ViewModel {
    var statuses: map<ThreadId, ThreadStatus>
    var threads: seq<Thread>
    var selected: nat
    var active: Option<ThreadId>
    var visible: seq<Entry>
    var transcripts: Transcripts
    var pendingStart: seq<Entry>
    var streaming: Option<string>

    function Value(): View
      reads this
    {
      View(statuses, threads, selected, active, visible, transcripts, pendingStart, streaming)
    }

    constructor ()
      ensures Value() == EMPTY
    {
      statuses, threads, selected, active := map[], [], 0, None;
      visible, transcripts, pendingStart, streaming := [], map[], [], None;
    }

    method SyncVisibleTranscript()
      modifies this`visible
      ensures Value() == Synced(old(Value()))
    {
      visible := if active.Some? && active.value in transcripts then transcripts[active.value] else [];
    }

    method ReplaceOrAppend(t: Thread)
      modifies this`threads
      ensures threads == Updated(old(threads), t)
    {
      var i := Position(threads, t.id);
      if i < |threads| {
        threads := threads[i := t];
      } else {
        threads := threads + [t];
      }
    }

    method UpsertThread(t: Thread)
      modifies this
      ensures Value() == AfterUpsert(old(Value()), t)
    {
      var picked := if selected < |threads| then Some(threads[selected].id) else None;
      if active.None? {
        active := Some(t.id);
      }
      ReplaceOrAppend(t);
      statuses := statuses[t.id := t.status];
      threads := Sort(threads, Staleness);
      selected := IndexOf(threads, if picked.Some? then picked else Some(t.id));
      SyncVisibleTranscript();
    }

    method ReplaceThreads(listed: seq<Thread>)
      modifies this
      ensures Value() == AfterList(old(Value()), listed)
    {
      var picked := if selected < |threads| then Some(threads[selected].id) else None;
      if active.Some? && !HasId(listed, active.value) {
        active := None;
      }
      threads := listed;
      statuses := map[];
      var i := 0;
      while i < |threads|
        invariant i <= |threads| && statuses == StatusesOf(threads[..i])
        invariant threads == listed && selected == old(selected) && visible == old(visible)
        invariant transcripts == old(transcripts) && pendingStart == old(pendingStart) && streaming == old(streaming)
        invariant active == if old(active).Some? && HasId(listed, old(active).value) then old(active) else None
      {
        assert threads[..i + 1][..i] == threads[..i];
        statuses := statuses[threads[i].id := threads[i].status];
        i := i + 1;
      }
      assert threads[..i] == threads;
      selected := IndexOf(threads, picked);
      SyncVisibleTranscript();
    }

    method AttachPendingEntriesToThread(id: ThreadId)
      modifies this
      ensures Value() == AfterAttach(old(Value()), id)
    {
      if pendingStart == [] {
        SyncVisibleTranscript();
        return;
      }
      var transcript := Stored(transcripts, id);
      var i := 0;
      while i < |pendingStart|
        invariant i <= |pendingStart| && pendingStart == old(pendingStart)
        invariant transcript == PushAll(Stored(old(transcripts), id), pendingStart[..i])
        invariant Value() == old(Value())
      {
        assert pendingStart[..i + 1][..i] == pendingStart[..i];
        transcript := PushDeduped(transcript, pendingStart[i]);
        i := i + 1;
      }
      assert pendingStart[..i] == pendingStart;
      transcripts := transcripts[id := transcript];
      pendingStart := [];
      SyncVisibleTranscript();
    }

    method ThreadStarted(t: Thread)
      modifies this
      ensures Value() == AfterStart(old(Value()), t)
    {
      active := Some(t.id);
      UpsertThread(t);
      AttachPendingEntriesToThread(t.id);
    }

    method ThreadOpened(t: Thread)
      modifies this
      ensures Value() == AfterOpen(old(Value()), t)
    {
      active := Some(t.id);
      UpsertThread(t);
      SyncVisibleTranscript();
    }

    method PushThreadEntry(id: ThreadId, entry: Entry)
      modifies this
      ensures Value() == AfterPush(old(Value()), id, entry)
    {
      transcripts := transcripts[id := PushDeduped(Stored(transcripts, id), entry)];
      if active == Some(id) {
        SyncVisibleTranscript();
      }
    }

    method PushEntryForSelectedThread(entry: Entry)
      modifies this
      ensures Value() == AfterPushSelected(old(Value()), entry)
    {
      if active.Some? {
        PushThreadEntry(active.value, entry);
      } else {
        visible := PushDeduped(visible, entry);
      }
    }

    /** A chunk is added to the one preview there is, whatever thread it belongs to. */
    method AssistantChunk(chunk: string)
      modifies this`streaming
      ensures Value() == AfterChunk(old(Value()), chunk)
    {
      if streaming.None? {
        streaming := Some("");
      }
      streaming := Some(streaming.value + chunk);
    }

    method AssistantCompleted(id: ThreadId, message: string)
      modifies this
      ensures Value() == AfterCompletion(old(Value()), id, message)
    {
      streaming := None;
      PushThreadEntry(id, Entry(Assistant, message));
    }

    method PushPendingThreadStartMessage(message: string)
      modifies this
      ensures Value() == AfterPending(old(Value()), message)
    {
      pendingStart := PushDeduped(pendingStart, Entry(User, message));
      visible := pendingStart;
    }

    method ReplaceThreadHistory(id: ThreadId, recent: seq<SessionEntry>)
      modifies this
      ensures Value() == AfterHistory(old(Value()), id, recent)
    {
      var history: seq<Entry> := [];
      var i := 0;
      while i < |recent|
        invariant i <= |recent| && history == History(recent[..i])
        invariant Value() == old(Value())
      {
        assert recent[..i + 1][..i] == recent[..i];
        var e := EntryFromSession(recent[i]);
        if e.Some? {
          history := history + [e.value];
        }
        i := i + 1;
      }
      assert recent[..i] == recent;
      var existing := Stored(transcripts, id);
      i := 0;
      while i < |existing|
        invariant i <= |existing| && history == PushAll(History(recent), existing[..i])
        invariant Value() == old(Value())
      {
        assert existing[..i + 1][..i] == existing[..i];
        history := PushDeduped(history, existing[i]);
        i := i + 1;
      }
      assert existing[..i] == existing;
      transcripts := transcripts[id := history];
      if active == Some(id) {
        SyncVisibleTranscript();
      }
    }

    method SelectPreviousThread()
      modifies this`selected
      ensures Value() == AfterPickPrevious(old(Value()))
    {
      if threads == [] {
        selected := 0;
      } else if selected == 0 {
        selected := |threads| - 1;
      } else {
        selected := selected - 1;
      }
    }

    method SelectNextThread()
      modifies this`selected
      ensures Value() == AfterPickNext(old(Value()))
    {
      selected := if threads == [] then 0 else (selected + 1) % |threads|;
    }

    method ActivateSelectedThread() returns (id: Option<ThreadId>)
      modifies this
      ensures Value() == AfterActivate(old(Value())) && id == PickedId(old(Value()))
    {
      id := if selected < |threads| then Some(threads[selected].id) else None;
      if id.Some? {
        active := id;
        SyncVisibleTranscript();
      }
    }
  }
}
