/**
 * The `time-entry-sync` command itself: an object that walks the requested
 * range day by day, fetches and filters the Toggl entries of each day, lists
 * them, asks once for each day whose queue is not empty, and pushes the
 * confirmed entries to Redmine.
 *
 * What it prints and which remote calls it makes are kept in `trace`; the
 * answers of Toggl, Redmine and the person at the console come from `world`,
 * consumed in order through the counters in `calls`. Every method is proved to
 * leave exactly the trace that the functions of `Reconciliation` describe, so
 * the lemmas proved there hold of the command.
 */
module Command {
  import opened Common
  import opened Descriptions
  import opened DayWindows
  import opened Entries
  import opened Reconciliation

  class TimeEntrySync {
    /** Toggl, Redmine and the console. */
    const world: World
    /** The current Toggl user and the workspace given on the command line. */
    const context: Context
    /** Everything printed and every remote call made so far, in order. */
    var trace: seq<Event>
    /** How many prompts, creates and updates have been issued so far. */
    var calls: Calls

    constructor(world: World, context: Context)
      ensures this.world == world && this.context == context
      ensures trace == [] && calls == Calls(0, 0, 0)
    {
      this.world := world;
      this.context := context;
      trace := [];
      calls := Calls(0, 0, 0);
    }

    /**
     * execute: one pass over the range, a window per calendar day; each window
     * ends at 23:59:59 of its day or at `globalTo`, and the next starts one
     * second later. "Finished." is printed at the end.
     */
    method Execute(globalFrom: Time, globalTo: Time)
      modifies this
      ensures var run := RunEvents(world, context, Windows(globalFrom, globalTo), old(calls));
        trace == old(trace) + run.events + [Finished] && calls == run.calls
    {
      ghost var run := RunEvents(world, context, Windows(globalFrom, globalTo), calls);
      ghost var target := trace + run.events;
      ghost var remaining := run;
      var dayFrom := globalFrom;
      while Before(dayFrom, globalTo)
        invariant remaining == RunEvents(world, context, Windows(dayFrom, globalTo), calls)
        invariant trace + remaining.events == target && remaining.calls == run.calls
        decreases Seconds(globalTo) - Seconds(dayFrom)
      {
        var dayTo := EndOfDay(dayFrom);
        if Before(globalTo, dayTo) {
          dayTo := globalTo;
        }
        ghost var before, k := trace, calls;
        ghost var day := DayEvents(world, context, dayFrom, dayTo, k);
        ghost var rest := RunEvents(world, context, Windows(NextSecond(dayTo), globalTo), day.calls);
        RunResumes(world, context, dayFrom, dayTo, globalTo, k, before, target, run.calls, day, rest);
        SyncWindow(dayFrom, dayTo);
        BeforeSeconds(dayFrom, globalTo);
        BeforeSeconds(dayFrom, NextSecond(dayTo));
        dayFrom, remaining := NextSecond(dayTo), rest;
      }
      assert Windows(dayFrom, globalTo) == [];
      trace := trace + [Finished];
    }

    /**
     * The body of execute's loop for one window: print the window, fetch and
     * filter its entries, then print that there are none, or their number and
     * process them.
     */
    method SyncWindow(dayFrom: Time, dayTo: Time)
      modifies this
      ensures var day := DayEvents(world, context, dayFrom, dayTo, old(calls));
        trace == old(trace) + day.events && calls == day.calls
    {
      ghost var before, k := trace, calls;
      trace := trace + [WindowStarted(dayFrom, dayTo)];
      var entries := GetTimeEntries(dayFrom, dayTo);
      if |entries| == 0 {
        trace := trace + [NoEntries];
        DayTraceEmpty(world, context, dayFrom, dayTo, k, before);
      } else {
        trace := trace + [EntriesGiven(|entries|)];
        ProcessTimeEntries(Values(entries));
        DayTraceGiven(world, context, dayFrom, dayTo, k, before);
      }
    }

    /**
     * getTimeEntries: one Toggl fetch for the window, then the slots of entries
     * that belong to another user, are still running, or are in another
     * workspace are unset.
     */
    method GetTimeEntries(from: Time, until: Time) returns (entries: seq<KeyedEntry>)
      modifies this
      ensures entries == Filter(Indexed(world.timeEntries(from, until)), context)
      ensures trace == old(trace) + [Fetch(from, until)] && calls == old(calls)
    {
      trace := trace + [Fetch(from, until)];
      entries := FilterEntries(Indexed(world.timeEntries(from, until)), context);
    }

    /**
     * processTimeEntries: list every entry with its issue and state, queue the
     * ones that name an issue and are not synced; then stop if nothing is
     * queued, ask once, stop if declined, and otherwise sync the queue in order
     * under a progress bar.
     */
    method ProcessTimeEntries(entries: seq<TimeEntry>)
      modifies this
      ensures var p := ProcessEvents(world, entries, old(calls));
        trace == old(trace) + p.events && calls == p.calls
    {
      ghost var start, k := trace, calls;
      var process := ListEntries(entries);

      if |process| == 0 {
        trace := trace + [AllSynced];
        ProcessTraceEmpty(world, entries, k, start);
        return;
      }

      trace := trace + [Confirm(|process|)];
      var confirmed := world.confirms(calls.prompts);
      calls := calls.(prompts := calls.prompts + 1);
      if !confirmed {
        trace := trace + [Aborted];
        ProcessTraceDeclined(world, entries, k, start);
        return;
      }

      trace := trace + [ProgressStart(|process|)];
      SyncQueue(process);
      trace := trace + [ProgressFinish];
      ProcessTraceConfirmed(world, entries, k, start);
    }

    /**
     * The first loop of processTimeEntries: print one line per entry (no issue,
     * or its issue and whether it is synced) and queue the entries that name an
     * issue and are not synced yet, in input order.
     */
    method ListEntries(entries: seq<TimeEntry>) returns (process: seq<Candidate>)
      modifies this
      ensures process == Queue(entries)
      ensures trace == old(trace) + Reports(entries) && calls == old(calls)
    {
      ghost var start := trace;
      process := [];
      for i := 0 to |entries|
        invariant process == Queue(entries[..i])
        invariant trace == start + Reports(entries[..i])
        invariant calls == old(calls)
      {
        var entry := entries[i];
        ReportsExtend(entries, i);
        QueueExtend(entries, i);
        AppendAssoc(start, Reports(entries[..i]), [Report(entry)]);
        var issueId := IssueNumber(entry.description);
        if IsTruthy(issueId) {
          if IsSynced(entry.description) {
            trace := trace + [Listed(entry.id, issueId.value, true)];
          } else {
            trace := trace + [Listed(entry.id, issueId.value, false)];
            process := process + [Candidate(entry, issueId.value)];
          }
        } else {
          trace := trace + [NoIssueFound(entry.id)];
        }
      }
      assert entries[..|entries|] == entries;
    }

    /** The confirmed batch: sync the queued entries in order, advancing the progress bar after each. */
    method SyncQueue(process: seq<Candidate>)
      modifies this
      ensures var s := SyncAll(world, process, old(calls));
        trace == old(trace) + s.events && calls == s.calls
    {
      ghost var before, batch := trace, calls;
      for i := 0 to |process|
        invariant trace == before + SyncAll(world, process[..i], batch).events
        invariant calls == SyncAll(world, process[..i], batch).calls
      {
        SyncAllExtend(world, process, i, batch);
        AppendAssoc(before, SyncAll(world, process[..i], batch).events, SyncEntry(world, process[i], calls).events);
        SyncTimeEntry(process[i].entry, process[i].issue);
        trace := trace + [ProgressAdvance];
      }
      assert process[..|process|] == process;
    }

    /**
     * syncTimeEntry: create the Redmine time entry; on an exception or a record
     * without id report the failure and stop; otherwise append the synced marker
     * to the description, set `created_with`, send the entry back to Toggl, and
     * report an empty answer.
     */
    method SyncTimeEntry(entry: TimeEntry, issueId: string)
      modifies this
      ensures var s := SyncEntry(world, Candidate(entry, issueId), old(calls));
        trace == old(trace) + s.events && calls == s.calls
    {
      trace := trace + [Create(issueId, entry.start, entry.duration, entry.description)];
      var created := world.creates(calls.creates);
      calls := calls.(creates := calls.creates + 1);
      if created.Threw? {
        trace := trace + [SyncFailed(entry.id, issueId, created.message)];
        return;
      }
      if created.id == "" {
        trace := trace + [SyncFailed(entry.id, issueId, created.error)];
        return;
      }
      var updated := Marked(entry, created.id);
      trace := trace + [Update(entry.id, updated)];
      var answered := world.updates(calls.updates);
      calls := calls.(updates := calls.updates + 1);
      if !answered {
        trace := trace + [UpdateFailed(entry.id, Text(updated.description))];
      }
    }
  }
}
