/**
 * Toggl time entries as the command sees them, and the filter that keeps only
 * the current user's finished entries in the target workspace.
 */
module Entries {
  import opened Common

  /**
   * The fields of a Toggl time entry that the command reads or writes. `stop`
   * is unset while the entry is still running; `description` may be unset.
   */
  datatype TimeEntry = TimeEntry(
    id: int,
    description: Option<string>,
    uid: int,
    wid: int,
    stop: Option<string>,
    start: string,
    duration: int,
    createdWith: Option<string>)

  /** One slot of a PHP array of entries: the array key and the entry stored under it. */
  datatype KeyedEntry = KeyedEntry(key: int, entry: TimeEntry)

  /** Who is syncing: the Toggl user id of the API key's owner and the workspace named on the command line. */
  datatype Context = Context(userId: int, workspaceId: int)

  /** PHP `empty()` on an optional string: unset, "" and "0" are empty. */
  predicate IsEmpty(v: Option<string>) {
    v.None? || v.value == "" || v.value == "0"
  }

  /** The entry survives the filter: it is the current user's, it is finished, and it is in the workspace. */
  predicate Kept(e: TimeEntry, ctx: Context) {
    e.uid == ctx.userId && !IsEmpty(e.stop) && e.wid == ctx.workspaceId
  }

  /** PHP arrays never hold two slots under one key. */
  ghost predicate UniqueKeys(s: seq<KeyedEntry>) {
    forall i, j :: 0 <= i < j < |s| ==> s[i].key != s[j].key
  }

  /** The list decoded from Toggl's JSON answer, as a PHP array: keys 0, 1, 2, ... in order. */
  function Indexed(list: seq<TimeEntry>): (r: seq<KeyedEntry>)
    ensures |r| == |list| && UniqueKeys(r)
    ensures forall i :: 0 <= i < |r| ==> r[i].key == i && r[i].entry == list[i]
  {
    seq(|list|, i requires 0 <= i < |list| => KeyedEntry(i, list[i]))
  }

  /** The entries of an array, in order, without their keys: what `foreach ($entries as $entry)` visits. */
  function Values(s: seq<KeyedEntry>): seq<TimeEntry> {
    seq(|s|, i requires 0 <= i < |s| => s[i].entry)
  }

  /** Dropping the keys of the decoded list gives the list back. */
  lemma {:induction false} ValuesIndexed(list: seq<TimeEntry>)
    ensures Values(Indexed(list)) == list
  {
  }

  lemma {:induction false} ValuesAppend(s: seq<KeyedEntry>, x: KeyedEntry)
    ensures Values(s + [x]) == Values(s) + [x.entry]
  {
  }

  /** `unset($entries[$key])`: the array without the slot stored under `key`. */
  function Unset(s: seq<KeyedEntry>, key: int): seq<KeyedEntry> {
    if s == [] then []
    else (if s[0].key == key then [] else [s[0]]) + Unset(s[1..], key)
  }

  /** The specification of the filter: the kept slots of `s`, in their original order, keys included. */
  function Filter(s: seq<KeyedEntry>, ctx: Context): seq<KeyedEntry> {
    if s == [] then []
    else
      var last := s[|s| - 1];
      Filter(s[..|s| - 1], ctx) + (if Kept(last.entry, ctx) then [last] else [])
  }

  /** A slot is in the result exactly when it is in the input and its entry is kept. */
  lemma {:induction false} FilterMembers(s: seq<KeyedEntry>, ctx: Context)
    ensures forall x :: x in Filter(s, ctx) <==> x in s && Kept(x.entry, ctx)
  {
    if s != [] {
      var init, last := s[..|s| - 1], s[|s| - 1];
      FilterMembers(init, ctx);
      assert s == init + [last];
    }
  }

  /** The filter only deletes: what is left is a subsequence of the input. */
  lemma {:induction false} FilterIsSubsequence(s: seq<KeyedEntry>, ctx: Context)
    ensures IsSubsequence(Filter(s, ctx), s)
  {
    if s != [] {
      var init, last := s[..|s| - 1], s[|s| - 1];
      FilterIsSubsequence(init, ctx);
      assert s == init + [last];
      if Kept(last.entry, ctx) {
        var r := Filter(s, ctx);
        assert r[..|r| - 1] == Filter(init, ctx);
      } else {
        assert Filter(s, ctx) == Filter(init, ctx);
        SubsequenceExtend(Filter(init, ctx), init, last);
      }
    }
  }

  /**
   * What `foreach` sees after the filter: the kept entries of the array, in their
   * original order, and exactly those.
   */
  lemma {:induction false} ValuesOfFilter(s: seq<KeyedEntry>, ctx: Context)
    ensures IsSubsequence(Values(Filter(s, ctx)), Values(s))
    ensures forall e :: e in Values(Filter(s, ctx)) <==> e in Values(s) && Kept(e, ctx)
  {
    if s != [] {
      var init, last := s[..|s| - 1], s[|s| - 1];
      var kept := Filter(init, ctx);
      ValuesOfFilter(init, ctx);
      assert s == init + [last];
      ValuesAppend(init, last);
      if Kept(last.entry, ctx) {
        assert Filter(s, ctx) == kept + [last];
        ValuesAppend(kept, last);
        var a, b := Values(kept) + [last.entry], Values(init) + [last.entry];
        assert a[..|a| - 1] == Values(kept) && b[..|b| - 1] == Values(init);
      } else {
        assert Filter(s, ctx) == kept;
        SubsequenceExtend(Values(kept), Values(init), last.entry);
      }
    }
  }

  /**
   * The entries handed on by getTimeEntries: those of the fetched list that are
   * kept, in the order Toggl sent them, and nothing else.
   */
  lemma {:induction false} FetchedAndKept(list: seq<TimeEntry>, ctx: Context)
    ensures IsSubsequence(Values(Filter(Indexed(list), ctx)), list)
    ensures forall e :: e in Values(Filter(Indexed(list), ctx)) <==> e in list && Kept(e, ctx)
  {
    ValuesIndexed(list);
    ValuesOfFilter(Indexed(list), ctx);
  }

  /** `unset($entries[$key])` leaves exactly the slots stored under another key. */
  lemma {:induction false} UnsetMembers(s: seq<KeyedEntry>, key: int)
    ensures forall x :: x in Unset(s, key) <==> x in s && x.key != key
  {
    if s != [] {
      UnsetMembers(s[1..], key);
      assert s == [s[0]] + s[1..];
    }
  }

  lemma {:induction false} UnsetAppend(a: seq<KeyedEntry>, b: seq<KeyedEntry>, key: int)
    ensures Unset(a + b, key) == Unset(a, key) + Unset(b, key)
  {
    if a != [] {
      var head := if a[0].key == key then [] else [a[0]];
      calc {
        Unset(a + b, key);
        { assert (a + b)[0] == a[0]; assert (a + b)[1..] == a[1..] + b; }
        head + Unset(a[1..] + b, key);
        { UnsetAppend(a[1..], b, key); }
        head + (Unset(a[1..], key) + Unset(b, key));
        Unset(a, key) + Unset(b, key);
      }
    } else {
      assert a + b == b;
    }
  }

  lemma {:induction false} UnsetAbsent(s: seq<KeyedEntry>, key: int)
    requires forall j :: 0 <= j < |s| ==> s[j].key != key
    ensures Unset(s, key) == s
  {
    if s != [] {
      UnsetAbsent(s[1..], key);
    }
  }

  /**
   * One step of the filter loop: with the first `i` slots filtered, keeping slot `i`
   * leaves the array as it is, and dropping it is `unset` of its key.
   */
  lemma {:induction false} FilterAdvance(fetched: seq<KeyedEntry>, i: nat, ctx: Context)
    requires UniqueKeys(fetched) && i < |fetched|
    ensures var current := Filter(fetched[..i], ctx) + fetched[i..];
      var next := Filter(fetched[..i + 1], ctx) + fetched[i + 1..];
      if Kept(fetched[i].entry, ctx) then next == current else next == Unset(current, fetched[i].key)
  {
    assert fetched[..i + 1][..i] == fetched[..i];
    var done := Filter(fetched[..i], ctx);
    assert fetched[i..] == [fetched[i]] + fetched[i + 1..];
    if Kept(fetched[i].entry, ctx) {
      AppendAssoc(done, [fetched[i]], fetched[i + 1..]);
    } else {
      DropSlot(fetched, i, ctx);
    }
  }

  /**
   * getTimeEntries' loop: walk the fetched array and `unset` every slot whose
   * entry belongs to another user, is still running, or is in another workspace.
   */
  method FilterEntries(fetched: seq<KeyedEntry>, ctx: Context) returns (entries: seq<KeyedEntry>)
    requires UniqueKeys(fetched)
    ensures entries == Filter(fetched, ctx)
  {
    entries := fetched;
    for i := 0 to |fetched|
      invariant entries == Filter(fetched[..i], ctx) + fetched[i..]
    {
      var id, entry := fetched[i].key, fetched[i].entry;
      FilterAdvance(fetched, i, ctx);
      if entry.uid != ctx.userId {
        entries := Unset(entries, id);
      } else if IsEmpty(entry.stop) {
        entries := Unset(entries, id);
      } else if entry.wid != ctx.workspaceId {
        entries := Unset(entries, id);
      }
    }
    assert fetched[..|fetched|] == fetched;
  }

  /** No slot the filter has kept so far shares a key with a slot not yet visited. */
  lemma {:induction false} KeptKeysEarlier(fetched: seq<KeyedEntry>, i: nat, ctx: Context)
    requires UniqueKeys(fetched) && i < |fetched|
    ensures forall j :: 0 <= j < |Filter(fetched[..i], ctx)| ==> Filter(fetched[..i], ctx)[j].key != fetched[i].key
  {
    var done := Filter(fetched[..i], ctx);
    FilterMembers(fetched[..i], ctx);
    forall j | 0 <= j < |done| ensures done[j].key != fetched[i].key {
      assert done[j] in fetched[..i];
      var k :| 0 <= k < i && fetched[..i][k] == done[j];
      assert fetched[k] == done[j];
    }
  }

  /** Unsetting slot `i` removes exactly that slot: its key is nowhere else in the array. */
  lemma {:induction false} DropSlot(fetched: seq<KeyedEntry>, i: nat, ctx: Context)
    requires UniqueKeys(fetched) && i < |fetched|
    ensures Unset(Filter(fetched[..i], ctx) + fetched[i..], fetched[i].key) == Filter(fetched[..i], ctx) + fetched[i + 1..]
  {
    var done, x, rest := Filter(fetched[..i], ctx), fetched[i], fetched[i + 1..];
    assert fetched[i..] == [x] + rest;
    KeptKeysEarlier(fetched, i, ctx);
    assert forall j :: 0 <= j < |rest| ==> rest[j].key != x.key by {
      forall j | 0 <= j < |rest| ensures rest[j].key != x.key {
        assert rest[j] == fetched[i + 1 + j];
      }
    }
    calc {
      Unset(done + fetched[i..], x.key);
      Unset(done + ([x] + rest), x.key);
      { UnsetAppend(done, [x] + rest, x.key); }
      Unset(done, x.key) + Unset([x] + rest, x.key);
      { UnsetAbsent(done, x.key); }
      done + Unset([x] + rest, x.key);
      { assert ([x] + rest)[0] == x; assert ([x] + rest)[1..] == rest; }
      done + Unset(rest, x.key);
      { UnsetAbsent(rest, x.key); }
      done + rest;
    }
  }
}
