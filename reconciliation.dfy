/**
 * The reconciliation run as values: what the command reports and which remote
 * calls it makes, for given answers from Toggl, Redmine and the person at the
 * console. The methods of `Command.TimeEntrySync` are proved to produce exactly
 * these traces; the lemmas here state what the traces promise.
 */
module Reconciliation {
  import opened Common
  import opened Descriptions
  import opened DayWindows
  import opened Entries

  /** The tag the command writes into `created_with` when it marks an entry as synced. */
  const CreatedWith: string := "toggl2redmine"

  /** How processTimeEntries classifies one entry. */
  datatype Verdict = NoIssue | AlreadySynced(issue: string) | Queued(issue: string)

  /** One item of the `$process` queue: an entry and the issue number found in it. */
  datatype Candidate = Candidate(entry: TimeEntry, issue: string)

  /**
   * What the Redmine `time_entry` create call does: it throws, or it returns a
   * record whose `id` is empty when Redmine refused it (an empty element is falsy).
   */
  datatype CreateOutcome = Threw(message: string) | Returned(id: string, error: string)

  /**
   * The world outside the command. Each answer is indexed by how many such
   * calls came before it in the run: the n-th confirmation prompt, the n-th
   * Redmine create, the n-th Toggl update (true when its answer is non-empty).
   * Toggl's entry list is a function of the requested window.
   */
  datatype World = World(
    timeEntries: (Time, Time) -> seq<TimeEntry>,
    confirms: nat -> bool,
    creates: nat -> CreateOutcome,
    updates: nat -> bool)

  /** How many prompts, creates and updates the run has issued so far. */
  datatype Calls = Calls(prompts: nat, creates: nat, updates: nat)

  /** One report line or one remote call, in the order the command makes them. */
  datatype Event =
    | WindowStarted(from: Time, until: Time)
    | Fetch(from: Time, until: Time)
    | NoEntries
    | EntriesGiven(count: nat)
    | Listed(entryId: int, issue: string, synced: bool)
    | NoIssueFound(entryId: int)
    | AllSynced
    | Confirm(count: nat)
    | Aborted
    | ProgressStart(total: nat)
    | ProgressAdvance
    | ProgressFinish
    | Create(issue: string, start: string, duration: int, comments: Option<string>)
    | SyncFailed(entryId: int, issue: string, reason: string)
    | Update(entryId: int, entry: TimeEntry)
    | UpdateFailed(entryId: int, description: string)
    | Finished

  /** The events of a stretch of the run and the call counts after it. */
  datatype Step = Step(events: seq<Event>, calls: Calls)

  // ---------------------------------------------------------------------------
  // Classification (processTimeEntries, first loop)
  // ---------------------------------------------------------------------------

  /** The issue test comes first, then the synced test. */
  function Classify(e: TimeEntry): Verdict {
    var issue := IssueNumber(e.description);
    if !IsTruthy(issue) then NoIssue
    else if IsSynced(e.description) then AlreadySynced(issue.value)
    else Queued(issue.value)
  }

  /** The line printed for one entry while classifying. */
  function Report(e: TimeEntry): Event {
    match Classify(e)
    case NoIssue => NoIssueFound(e.id)
    case AlreadySynced(issue) => Listed(e.id, issue, true)
    case Queued(issue) => Listed(e.id, issue, false)
  }

  function Reports(es: seq<TimeEntry>): seq<Event> {
    seq(|es|, i requires 0 <= i < |es| => Report(es[i]))
  }

  /** The `$process` queue built from a list of entries. */
  function Queue(es: seq<TimeEntry>): seq<Candidate> {
    if es == [] then []
    else
      var last := es[|es| - 1];
      Queue(es[..|es| - 1]) + (if Classify(last).Queued? then [Candidate(last, Classify(last).issue)] else [])
  }

  function EntriesOf(q: seq<Candidate>): seq<TimeEntry> {
    seq(|q|, i requires 0 <= i < |q| => q[i].entry)
  }

  /** A candidate is queued exactly when its entry is in the list, names an issue and is not yet synced. */
  lemma {:induction false} QueueMembers(es: seq<TimeEntry>)
    ensures forall c :: c in Queue(es) <==> c.entry in es && Classify(c.entry) == Queued(c.issue)
  {
    if es != [] {
      var init := es[..|es| - 1];
      QueueMembers(init);
      assert es == init + [es[|es| - 1]];
    }
  }

  /** The queue keeps the entries' input order. */
  lemma {:induction false} QueueKeepsOrder(es: seq<TimeEntry>)
    ensures IsSubsequence(EntriesOf(Queue(es)), es)
  {
    if es != [] {
      var init, last := es[..|es| - 1], es[|es| - 1];
      QueueKeepsOrder(init);
      assert es == init + [last];
      var q := Queue(es);
      if Classify(last).Queued? {
        assert EntriesOf(q)[..|q| - 1] == EntriesOf(Queue(init));
      } else {
        assert EntriesOf(q) == EntriesOf(Queue(init));
        SubsequenceExtend(EntriesOf(Queue(init)), init, last);
      }
    }
  }

  /**
   * An entry whose issue value is falsy is reported as having no issue and is
   * never queued, whether or not its description carries the flag.
   */
  lemma {:induction false} NoIssueNeverQueued(es: seq<TimeEntry>, i: nat)
    requires i < |es| && !IsTruthy(IssueNumber(es[i].description))
    ensures Reports(es)[i] == NoIssueFound(es[i].id)
    ensures forall c :: c in Queue(es) ==> c.entry != es[i]
  {
    QueueMembers(es);
  }

  /** An entry that names an issue and carries the flag is reported as synced under that issue. */
  lemma {:induction false} SyncedReported(es: seq<TimeEntry>, i: nat)
    requires i < |es| && IsTruthy(IssueNumber(es[i].description)) && IsSynced(es[i].description)
    ensures Reports(es)[i] == Listed(es[i].id, IssueNumber(es[i].description).value, true)
  {
  }

  /** An entry that names an issue and carries the flag is not queued again. */
  lemma {:induction false} SyncedNeverQueued(es: seq<TimeEntry>, i: nat)
    requires i < |es| && IsTruthy(IssueNumber(es[i].description)) && IsSynced(es[i].description)
    ensures forall c :: c in Queue(es) ==> c.entry != es[i]
  {
    QueueMembers(es);
  }

  // ---------------------------------------------------------------------------
  // Per-entry sync (syncTimeEntry)
  // ---------------------------------------------------------------------------

  /** A description as a string; PHP's `.=` on an unset value starts from "". */
  function Text(d: Option<string>): string {
    match d
    case None => ""
    case Some(s) => s
  }

  /** The entry sent back to Toggl after Redmine accepted it as record `recordId`. */
  function Marked(e: TimeEntry, recordId: string): TimeEntry {
    e.(description := Some(Text(e.description) + SyncedMarker(recordId)), createdWith := Some(CreatedWith))
  }

  /** The Redmine create request for a candidate: issue, start (for `spent_on`), duration (for `hours`), comments. */
  function CreateRequest(c: Candidate): Event {
    Create(c.issue, c.entry.start, c.entry.duration, c.entry.description)
  }

  predicate Succeeded(o: CreateOutcome) {
    o.Returned? && o.id != ""
  }

  function SyncEntry(w: World, c: Candidate, k: Calls): Step {
    var e := c.entry;
    var next := k.(creates := k.creates + 1);
    match w.creates(k.creates)
    case Threw(message) => Step([CreateRequest(c), SyncFailed(e.id, c.issue, message)], next)
    case Returned(id, error) =>
      if id == "" then Step([CreateRequest(c), SyncFailed(e.id, c.issue, error)], next)
      else
        var updated := Marked(e, id);
        var tail := if w.updates(k.updates) then [] else [UpdateFailed(e.id, Text(updated.description))];
        Step([CreateRequest(c), Update(e.id, updated)] + tail, next.(updates := k.updates + 1))
  }

  /** The marker round trip on a whole entry: once marked, a queued entry is classified as synced under the same issue. */
  lemma {:induction false} MarkedNotRequeued(e: TimeEntry, recordId: string)
    requires Classify(e).Queued?
    ensures Classify(Marked(e, recordId)) == AlreadySynced(Classify(e).issue)
  {
    MarkerRoundTrip(e.description.value, recordId);
  }

  /**
   * What Toggl receives: the original description followed by " #synced[<id>]",
   * `created_with` set to the tool's name, every other field as fetched.
   */
  lemma {:induction false} MarkedEntry(e: TimeEntry, recordId: string)
    requires e.description.Some?
    ensures Marked(e, recordId).description == Some(e.description.value + (" #synced[" + recordId + "]"))
    ensures Marked(e, recordId).createdWith == Some("toggl2redmine")
    ensures Marked(e, recordId).(description := e.description, createdWith := e.createdWith) == e
  {
    assert SyncedMarker(recordId) == " #synced[" + recordId + "]";
  }

  // ---------------------------------------------------------------------------
  // Batch control (processTimeEntries, after the first loop)
  // ---------------------------------------------------------------------------

  /** Syncing the queue in order; the progress bar advances after each item. */
  function SyncAll(w: World, q: seq<Candidate>, k: Calls): Step {
    if q == [] then Step([], k)
    else
      var before := SyncAll(w, q[..|q| - 1], k);
      var s := SyncEntry(w, q[|q| - 1], before.calls);
      Step(before.events + s.events + [ProgressAdvance], s.calls)
  }

  function ProcessEvents(w: World, es: seq<TimeEntry>, k: Calls): Step {
    var q := Queue(es);
    if q == [] then
      Step(Reports(es) + [AllSynced], k)
    else if !w.confirms(k.prompts) then
      Step(Reports(es) + [Confirm(|q|), Aborted], k.(prompts := k.prompts + 1))
    else
      var s := SyncAll(w, q, k.(prompts := k.prompts + 1));
      Step(Reports(es) + [Confirm(|q|), ProgressStart(|q|)] + s.events + [ProgressFinish], s.calls)
  }

  /** The reports of one more entry: its line comes last. */
  lemma {:induction false} ReportsExtend(es: seq<TimeEntry>, i: nat)
    requires i < |es|
    ensures Reports(es[..i + 1]) == Reports(es[..i]) + [Report(es[i])]
  {
  }

  /** The queue of one more entry: it is appended when it is queued. */
  lemma {:induction false} QueueExtend(es: seq<TimeEntry>, i: nat)
    requires i < |es|
    ensures Queue(es[..i + 1]) == Queue(es[..i]) + (if Classify(es[i]).Queued? then [Candidate(es[i], Classify(es[i]).issue)] else [])
  {
    assert es[..i + 1][..i] == es[..i];
  }

  /** Syncing one more item of the queue: its events, then the progress bar advances. */
  lemma {:induction false} SyncAllExtend(w: World, q: seq<Candidate>, i: nat, k: Calls)
    requires i < |q|
    ensures var before := SyncAll(w, q[..i], k);
      var s := SyncEntry(w, q[i], before.calls);
      SyncAll(w, q[..i + 1], k) == Step(before.events + s.events + [ProgressAdvance], s.calls)
  {
    assert q[..i + 1][..i] == q[..i];
  }

  /** An empty queue, appended to a trace `before` in the order the command prints it. */
  lemma {:induction false} ProcessTraceEmpty(w: World, es: seq<TimeEntry>, k: Calls, before: seq<Event>)
    requires Queue(es) == []
    ensures var p := ProcessEvents(w, es, k);
      before + p.events == before + Reports(es) + [AllSynced] && p.calls == k
  {
  }

  /** A declined batch, appended to a trace `before` in the order the command prints it. */
  lemma {:induction false} ProcessTraceDeclined(w: World, es: seq<TimeEntry>, k: Calls, before: seq<Event>)
    requires Queue(es) != [] && !w.confirms(k.prompts)
    ensures var p := ProcessEvents(w, es, k);
      before + p.events == before + Reports(es) + [Confirm(|Queue(es)|)] + [Aborted]
      && p.calls == k.(prompts := k.prompts + 1)
  {
  }

  /** A confirmed batch, appended to a trace `before` in the order the command prints it and calls. */
  lemma {:induction false} ProcessTraceConfirmed(w: World, es: seq<TimeEntry>, k: Calls, before: seq<Event>)
    requires Queue(es) != [] && w.confirms(k.prompts)
    ensures var q := Queue(es);
      var s := SyncAll(w, q, k.(prompts := k.prompts + 1));
      var p := ProcessEvents(w, es, k);
      before + p.events == before + Reports(es) + [Confirm(|q|)] + [ProgressStart(|q|)] + s.events + [ProgressFinish]
      && p.calls == s.calls
  {
    var q := Queue(es);
    var s := SyncAll(w, q, k.(prompts := k.prompts + 1));
    var p := ProcessEvents(w, es, k);
    assert p.events == Reports(es) + [Confirm(|q|), ProgressStart(|q|)] + s.events + [ProgressFinish];
    ConfirmedShape(before, Reports(es), Confirm(|q|), ProgressStart(|q|), s.events, ProgressFinish);
  }

  /** Regrouping a confirmed batch's trace into the single appends the command makes. */
  lemma {:induction false} ConfirmedShape(before: seq<Event>, r: seq<Event>, a: Event, b: Event, body: seq<Event>, c: Event)
    ensures before + (r + [a, b] + body + [c]) == before + r + [a] + [b] + body + [c]
  {
    assert [a, b] == [a] + [b];
  }

  // ---------------------------------------------------------------------------
  // The run (execute)
  // ---------------------------------------------------------------------------

  /** One window: the header line, the fetch, then either "no entries" or the batch. */
  function DayEvents(w: World, ctx: Context, from: Time, until: Time, k: Calls): Step {
    var entries := Filter(Indexed(w.timeEntries(from, until)), ctx);
    var head := [WindowStarted(from, until), Fetch(from, until)];
    if |entries| == 0 then
      Step(head + [NoEntries], k)
    else
      var p := ProcessEvents(w, Values(entries), k);
      Step(head + [EntriesGiven(|entries|)] + p.events, p.calls)
  }

  /** A window without kept entries, appended to a trace `before` in the order the command prints it. */
  lemma {:induction false} DayTraceEmpty(w: World, ctx: Context, from: Time, until: Time, k: Calls, before: seq<Event>)
    requires |Filter(Indexed(w.timeEntries(from, until)), ctx)| == 0
    ensures var day := DayEvents(w, ctx, from, until, k);
      before + day.events == before + [WindowStarted(from, until)] + [Fetch(from, until)] + [NoEntries]
      && day.calls == k
  {
  }

  /** A window with kept entries, appended to a trace `before` in the order the command prints it and calls. */
  lemma {:induction false} DayTraceGiven(w: World, ctx: Context, from: Time, until: Time, k: Calls, before: seq<Event>)
    requires |Filter(Indexed(w.timeEntries(from, until)), ctx)| > 0
    ensures var entries := Filter(Indexed(w.timeEntries(from, until)), ctx);
      var day := DayEvents(w, ctx, from, until, k);
      var p := ProcessEvents(w, Values(entries), k);
      before + day.events == before + [WindowStarted(from, until)] + [Fetch(from, until)] + [EntriesGiven(|entries|)] + p.events
      && day.calls == p.calls
  {
  }

  /** The run over a list of windows, one after the other, the call counts carried along. */
  function RunEvents(w: World, ctx: Context, ws: seq<Window>, k: Calls): Step {
    if ws == [] then Step([], k)
    else
      var day := DayEvents(w, ctx, ws[0].start, ws[0].end, k);
      var rest := RunEvents(w, ctx, ws[1..], day.calls);
      Step(day.events + rest.events, rest.calls)
  }

  /** The run over a range: the first day's window, then the run over the rest of the range. */
  lemma {:induction false} RunStep(w: World, ctx: Context, globalFrom: Time, globalTo: Time, k: Calls)
    requires Before(globalFrom, globalTo)
    ensures var end := WindowEnd(globalFrom, globalTo);
      var day := DayEvents(w, ctx, globalFrom, end, k);
      var rest := RunEvents(w, ctx, Windows(NextSecond(end), globalTo), day.calls);
      RunEvents(w, ctx, Windows(globalFrom, globalTo), k) == Step(day.events + rest.events, rest.calls)
  {
    WindowsStep(globalFrom, globalTo);
    var ws := Windows(globalFrom, globalTo);
    assert ws[0] == Window(globalFrom, WindowEnd(globalFrom, globalTo));
    assert ws[1..] == Windows(NextSecond(WindowEnd(globalFrom, globalTo)), globalTo);
  }

  /**
   * A run that has produced `before` and still has [dayFrom, globalTo] ahead of it
   * ends in `target` with counts `last`. After the first day's window, ending at
   * `end`, it has produced `before` and that window's events `day`, and the run
   * over the rest of the range, `rest`, still ends the same way.
   */
  lemma {:induction false} RunResumes(w: World, ctx: Context, dayFrom: Time, end: Time, globalTo: Time, k: Calls,
                   before: seq<Event>, target: seq<Event>, last: Calls, day: Step, rest: Step)
    requires Before(dayFrom, globalTo) && end == WindowEnd(dayFrom, globalTo)
    requires before + RunEvents(w, ctx, Windows(dayFrom, globalTo), k).events == target
    requires RunEvents(w, ctx, Windows(dayFrom, globalTo), k).calls == last
    requires day == DayEvents(w, ctx, dayFrom, end, k)
    requires rest == RunEvents(w, ctx, Windows(NextSecond(end), globalTo), day.calls)
    ensures before + day.events + rest.events == target && rest.calls == last
  {
    RunStep(w, ctx, dayFrom, globalTo, k);
    var all := RunEvents(w, ctx, Windows(dayFrom, globalTo), k);
    assert all.events == day.events + rest.events;
    assert all.calls == rest.calls;
    AppendAssoc(before, day.events, rest.events);
  }

  // ---------------------------------------------------------------------------
  // Views of a trace: the remote calls of each kind, in order
  // ---------------------------------------------------------------------------

  /** The four kinds of call the command makes: a Toggl fetch, a prompt, a Redmine create, a Toggl update. */
  datatype Kind = Fetching | Prompting | Creating | Updating

  /** `ev` is a call of kind `kind`. */
  predicate IsCall(ev: Event, kind: Kind) {
    match kind
    case Fetching => ev.Fetch?
    case Prompting => ev.Confirm?
    case Creating => ev.Create?
    case Updating => ev.Update?
  }

  /** The calls of one kind in a trace, in the order they were made. */
  function View(evs: seq<Event>, kind: Kind): seq<Event> {
    if evs == [] then []
    else (if IsCall(evs[0], kind) then [evs[0]] else []) + View(evs[1..], kind)
  }

  /** An event that is only a report line: no remote call and no prompt. */
  predicate Quiet(ev: Event) {
    !ev.Fetch? && !ev.Confirm? && !ev.Create? && !ev.Update?
  }

  /** The fetch calls for a list of windows, one per window, in order. */
  function FetchesOf(ws: seq<Window>): seq<Event> {
    if ws == [] then [] else [Fetch(ws[0].start, ws[0].end)] + FetchesOf(ws[1..])
  }

  /** The view of a concatenation is the concatenation of the views. */
  lemma {:induction false} ViewAppend(a: seq<Event>, b: seq<Event>, kind: Kind)
    ensures View(a + b, kind) == View(a, kind) + View(b, kind)
  {
    if a == [] {
      assert a + b == b;
    } else {
      assert (a + b)[0] == a[0];
      assert (a + b)[1..] == a[1..] + b;
      ViewAppend(a[1..], b, kind);
    }
  }

  /** Report lines in front of a trace do not change what it calls. */
  lemma {:induction false} QuietPrefix(r: seq<Event>, t: seq<Event>, kind: Kind)
    requires forall i :: 0 <= i < |r| ==> Quiet(r[i])
    ensures View(r + t, kind) == View(t, kind)
  {
    if r != [] {
      assert (r + t)[0] == r[0] && !IsCall(r[0], kind);
      assert (r + t)[1..] == r[1..] + t;
      assert View(r + t, kind) == [] + View(r[1..] + t, kind);
      QuietPrefix(r[1..], t, kind);
    } else {
      assert r + t == t;
    }
  }

  /** Classifying makes no remote call and asks nothing. */
  lemma {:induction false} ReportsQuiet(es: seq<TimeEntry>)
    ensures forall i :: 0 <= i < |Reports(es)| ==> Quiet(Reports(es)[i])
  {
  }

  /** A prompt followed by a report line: the prompt is the only call. */
  lemma {:induction false} PromptView(n: nat, ev: Event, kind: Kind)
    requires Quiet(ev)
    ensures View([Confirm(n), ev], kind) == if kind == Prompting then [Confirm(n)] else []
  {
    assert [Confirm(n), ev][1..] == [ev];
    assert View([ev], kind) == [] + View([], kind);
  }

  // ---------------------------------------------------------------------------
  // What one sync, a batch and a run do
  // ---------------------------------------------------------------------------

  /** The updates a batch makes: one for each item whose own create succeeded, in queue order. */
  function SucceededUpdates(w: World, q: seq<Candidate>, first: nat): seq<Event> {
    if q == [] then []
    else
      var c, outcome := q[|q| - 1], w.creates(first + |q| - 1);
      SucceededUpdates(w, q[..|q| - 1], first)
        + (if Succeeded(outcome) then [Update(c.entry.id, Marked(c.entry, outcome.id))] else [])
  }

  /** The create requests for a queue, one per item, in queue order. */
  function RequestsFor(q: seq<Candidate>): seq<Event> {
    if q == [] then [] else RequestsFor(q[..|q| - 1]) + [CreateRequest(q[|q| - 1])]
  }

  /** A call in front of a trace shows in the view of its own kind only. */
  lemma {:induction false} ViewCons(ev: Event, t: seq<Event>, kind: Kind)
    ensures View([ev] + t, kind) == (if IsCall(ev, kind) then [ev] else []) + View(t, kind)
  {
    assert ([ev] + t)[0] == ev;
    assert ([ev] + t)[1..] == t;
  }

  /** A failed create: the create request is the sync's only call. */
  lemma {:induction false} FailedSyncView(w: World, c: Candidate, k: Calls, kind: Kind)
    requires !Succeeded(w.creates(k.creates))
    ensures View(SyncEntry(w, c, k).events, kind) == if kind == Creating then [CreateRequest(c)] else []
  {
    var evs := SyncEntry(w, c, k).events;
    assert evs == [CreateRequest(c)] + [evs[1]] && Quiet(evs[1]);
    ViewCons(CreateRequest(c), [evs[1]], kind);
    ViewCons(evs[1], [], kind);
  }

  /** A successful create: the create request, then the update of the marked entry. */
  lemma {:induction false} SucceededSyncView(w: World, c: Candidate, k: Calls, kind: Kind)
    requires Succeeded(w.creates(k.creates))
    ensures var u := Update(c.entry.id, Marked(c.entry, w.creates(k.creates).id));
      View(SyncEntry(w, c, k).events, kind) ==
        if kind == Creating then [CreateRequest(c)] else if kind == Updating then [u] else []
  {
    var evs := SyncEntry(w, c, k).events;
    var rest := evs[2..];
    assert evs == [evs[0]] + ([evs[1]] + rest);
    assert forall i :: 0 <= i < |rest| ==> Quiet(rest[i]);
    ViewCons(evs[0], [evs[1]] + rest, kind);
    ViewCons(evs[1], rest, kind);
    QuietPrefix(rest, [], kind);
    assert rest + [] == rest;
  }

  /**
   * The calls of one kind that the sync of `c` makes when its create has outcome `o`:
   * exactly one create request, and an update of the marked entry exactly when that
   * create returned a record id.
   */
  function ItemCalls(c: Candidate, o: CreateOutcome, kind: Kind): seq<Event> {
    if kind == Creating then [CreateRequest(c)]
    else if kind == Updating && Succeeded(o) then [Update(c.entry.id, Marked(c.entry, o.id))]
    else []
  }

  /** The calls of one sync, as `ItemCalls` lists them. */
  lemma {:induction false} SyncEntryView(w: World, c: Candidate, k: Calls, kind: Kind)
    ensures View(SyncEntry(w, c, k).events, kind) == ItemCalls(c, w.creates(k.creates), kind)
  {
    if Succeeded(w.creates(k.creates)) {
      SucceededSyncView(w, c, k, kind);
    } else {
      FailedSyncView(w, c, k, kind);
    }
  }

  /**
   * One sync: when the create throws or returns no id, the failure is reported
   * and Toggl is not called; otherwise Toggl receives the marked entry, and a
   * failed update is reported.
   */
  lemma {:induction false} SyncEntryOutcome(w: World, c: Candidate, k: Calls)
    ensures var s, o := SyncEntry(w, c, k), w.creates(k.creates);
      && s.calls.creates == k.creates + 1 && s.calls.prompts == k.prompts
      && (!Succeeded(o) ==>
          && s.calls.updates == k.updates
          && s.events[|s.events| - 1] == SyncFailed(c.entry.id, c.issue, if o.Threw? then o.message else o.error))
      && (Succeeded(o) ==>
          && s.calls.updates == k.updates + 1
          && (UpdateFailed(c.entry.id, Text(Marked(c.entry, o.id).description)) in s.events <==> !w.updates(k.updates)))
  {
  }

  /** The call counts after a batch: one create per item, no prompt. */
  lemma {:induction false} SyncAllCounts(w: World, q: seq<Candidate>, k: Calls)
    ensures SyncAll(w, q, k).calls.creates == k.creates + |q|
    ensures SyncAll(w, q, k).calls.prompts == k.prompts
  {
    if q != [] {
      SyncAllCounts(w, q[..|q| - 1], k);
    }
  }

  /** The calls a confirmed batch makes, of one kind: its create requests, its updates, or none. */
  function BatchCalls(w: World, q: seq<Candidate>, first: nat, kind: Kind): seq<Event> {
    if kind == Creating then RequestsFor(q)
    else if kind == Updating then SucceededUpdates(w, q, first)
    else []
  }

  /** A batch's calls of one kind: those of the items before the last, then the last item's own. */
  lemma {:induction false} BatchCallsStep(w: World, q: seq<Candidate>, first: nat, kind: Kind)
    requires q != []
    ensures BatchCalls(w, q, first, kind)
      == BatchCalls(w, q[..|q| - 1], first, kind) + ItemCalls(q[|q| - 1], w.creates(first + |q| - 1), kind)
  {
  }

  /** The view of one more sync and its progress step. */
  lemma {:induction false} ViewStep(a: seq<Event>, b: seq<Event>, kind: Kind)
    ensures View(a + b + [ProgressAdvance], kind) == View(a, kind) + View(b, kind)
  {
    ViewAppend(a, b, kind);
    ViewAppend(a + b, [ProgressAdvance], kind);
    assert View([ProgressAdvance], kind) == [];
  }

  /** Syncing one more item adds that item's own calls after the calls of the items before it. */
  lemma {:induction false} SyncAllStep(w: World, q: seq<Candidate>, k: Calls, kind: Kind)
    requires q != []
    requires View(SyncAll(w, q[..|q| - 1], k).events, kind) == BatchCalls(w, q[..|q| - 1], k.creates, kind)
    ensures View(SyncAll(w, q, k).events, kind) == BatchCalls(w, q, k.creates, kind)
  {
    var init, last := q[..|q| - 1], q[|q| - 1];
    var before := SyncAll(w, init, k);
    var one := SyncEntry(w, last, before.calls);
    assert SyncAll(w, q, k).events == before.events + one.events + [ProgressAdvance];
    SyncAllCounts(w, init, k);
    SyncEntryView(w, last, before.calls, kind);
    ViewStep(before.events, one.events, kind);
    BatchCallsStep(w, q, k.creates, kind);
    assert before.calls.creates == k.creates + |q| - 1;
  }

  /**
   * A confirmed batch: one create request per queued item, in queue order,
   * whatever happened to the items before it; Toggl updates exactly the items
   * whose own create succeeded; nothing is fetched and nothing asked.
   */
  lemma {:induction false} SyncAllView(w: World, q: seq<Candidate>, k: Calls, kind: Kind)
    ensures View(SyncAll(w, q, k).events, kind) == BatchCalls(w, q, k.creates, kind)
  {
    if q != [] {
      SyncAllView(w, q[..|q| - 1], k, kind);
      SyncAllStep(w, q, k, kind);
    }
  }

  /** Nothing queued: no call of any kind; the batch reports "all synced". */
  lemma {:induction false} ProcessWithEmptyQueue(w: World, es: seq<TimeEntry>, k: Calls, kind: Kind)
    requires Queue(es) == []
    ensures var p := ProcessEvents(w, es, k);
      && View(p.events, kind) == []
      && p.calls == k && p.events[|p.events| - 1] == AllSynced
  {
    ReportsQuiet(es);
    QuietPrefix(Reports(es), [AllSynced], kind);
  }

  /** A declined prompt: one prompt, then no create and no update; the batch is reported as aborted. */
  lemma {:induction false} ProcessDeclined(w: World, es: seq<TimeEntry>, k: Calls, kind: Kind)
    requires Queue(es) != [] && !w.confirms(k.prompts)
    ensures var p := ProcessEvents(w, es, k);
      && View(p.events, kind) == (if kind == Prompting then [Confirm(|Queue(es)|)] else [])
      && p.calls == k.(prompts := k.prompts + 1) && p.events[|p.events| - 1] == Aborted
  {
    ReportsQuiet(es);
    QuietPrefix(Reports(es), [Confirm(|Queue(es)|), Aborted], kind);
    PromptView(|Queue(es)|, Aborted, kind);
  }

  /**
   * The calls of a confirmed batch's trace: the prompt, then the calls of the syncs;
   * the progress bar is started in it.
   */
  lemma {:induction false} ConfirmedTraceView(r: seq<Event>, n: nat, body: seq<Event>, kind: Kind)
    requires forall i :: 0 <= i < |r| ==> Quiet(r[i])
    ensures var t := r + [Confirm(n), ProgressStart(n)] + body + [ProgressFinish];
      && View(t, kind) == (if kind == Prompting then [Confirm(n)] else []) + View(body, kind)
      && ProgressStart(n) in t
  {
    var head := [Confirm(n), ProgressStart(n)];
    var t := r + head + body + [ProgressFinish];
    assert t == r + (head + body + [ProgressFinish]);
    assert t[|r| + 1] == ProgressStart(n);
    QuietPrefix(r, head + body + [ProgressFinish], kind);
    ViewAppend(head, body, kind);
    ViewAppend(head + body, [ProgressFinish], kind);
    PromptView(n, ProgressStart(n), kind);
    assert View([ProgressFinish], kind) == [];
  }

  /**
   * A confirmed prompt: one prompt, the progress bar starts with the queue length,
   * every queued item gets its create request in queue order, and updates follow
   * the creates that succeeded.
   */
  lemma {:induction false} ProcessConfirmed(w: World, es: seq<TimeEntry>, k: Calls, kind: Kind)
    requires Queue(es) != [] && w.confirms(k.prompts)
    ensures var p, q := ProcessEvents(w, es, k), Queue(es);
      && View(p.events, kind) == (if kind == Prompting then [Confirm(|q|)] else BatchCalls(w, q, k.creates, kind))
      && ProgressStart(|q|) in p.events
      && p.calls.prompts == k.prompts + 1 && p.calls.creates == k.creates + |q|
  {
    var q := Queue(es);
    var k1 := k.(prompts := k.prompts + 1);
    var s := SyncAll(w, q, k1);
    var p := ProcessEvents(w, es, k);
    assert p.events == Reports(es) + [Confirm(|q|), ProgressStart(|q|)] + s.events + [ProgressFinish];
    assert p.calls == s.calls;
    ReportsQuiet(es);
    ConfirmedTraceView(Reports(es), |q|, s.events, kind);
    SyncAllView(w, q, k1, kind);
    SyncAllCounts(w, q, k1);
  }

  /** A batch never fetches. */
  lemma {:induction false} ProcessNoFetch(w: World, es: seq<TimeEntry>, k: Calls)
    ensures View(ProcessEvents(w, es, k).events, Fetching) == []
  {
    if Queue(es) == [] {
      ProcessWithEmptyQueue(w, es, k, Fetching);
    } else if !w.confirms(k.prompts) {
      ProcessDeclined(w, es, k, Fetching);
    } else {
      ProcessConfirmed(w, es, k, Fetching);
    }
  }

  /** One window fetches exactly that window. */
  lemma {:induction false} DayFetchesWindow(w: World, ctx: Context, from: Time, until: Time, k: Calls)
    ensures View(DayEvents(w, ctx, from, until, k).events, Fetching) == [Fetch(from, until)]
  {
    var head := [WindowStarted(from, until), Fetch(from, until)];
    var entries := Filter(Indexed(w.timeEntries(from, until)), ctx);
    var tail := if |entries| == 0 then [NoEntries]
      else [EntriesGiven(|entries|)] + ProcessEvents(w, Values(entries), k).events;
    assert DayEvents(w, ctx, from, until, k).events == [WindowStarted(from, until)] + ([Fetch(from, until)] + tail);
    QuietPrefix([WindowStarted(from, until)], [Fetch(from, until)] + tail, Fetching);
    ViewAppend([Fetch(from, until)], tail, Fetching);
    if |entries| == 0 {
    } else {
      ProcessNoFetch(w, Values(entries), k);
      QuietPrefix([EntriesGiven(|entries|)], ProcessEvents(w, Values(entries), k).events, Fetching);
    }
  }

  /** The run fetches exactly its windows, each once, in order. */
  lemma {:induction false} RunFetchesWindows(w: World, ctx: Context, ws: seq<Window>, k: Calls)
    ensures View(RunEvents(w, ctx, ws, k).events, Fetching) == FetchesOf(ws)
  {
    if ws != [] {
      var day := DayEvents(w, ctx, ws[0].start, ws[0].end, k);
      var rest := RunEvents(w, ctx, ws[1..], day.calls);
      RunFetchesWindows(w, ctx, ws[1..], day.calls);
      DayFetchesWindow(w, ctx, ws[0].start, ws[0].end, k);
      ViewAppend(day.events, rest.events, Fetching);
    }
  }
}
