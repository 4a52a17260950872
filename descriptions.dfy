/**
 * What the command reads from, and writes into, a Toggl time entry's free-text
 * description: the Redmine issue number (the first match of `/#([0-9]*)/m`),
 * and the `#synced` flag that marks an entry as already pushed to Redmine.
 */
module Descriptions {
  import opened Common

  /** The flag whose presence anywhere in a description means "already synced". */
  const SyncedFlag: string := "#synced"

  predicate IsDigit(c: char) {
    '0' <= c <= '9'
  }

  /** The longest prefix of `s` made of ASCII digits: what the greedy group `([0-9]*)` captures at the start of `s`. */
  function DigitRun(s: string): (r: string)
    ensures r <= s
    ensures forall i :: 0 <= i < |r| ==> IsDigit(r[i])
    ensures |r| == |s| || !IsDigit(s[|r|])
  {
    if s == [] || !IsDigit(s[0]) then "" else [s[0]] + DigitRun(s[1..])
  }

  /**
   * The position of the first `#` in `s`. Because the group `([0-9]*)` may be
   * empty, the pattern matches at every `#`, so this is where the first match starts.
   */
  function FirstHash(s: string): (r: Option<nat>)
    ensures r.None? <==> '#' !in s
    ensures r.Some? ==> r.value < |s| && s[r.value] == '#' && '#' !in s[..r.value]
  {
    if s == [] then None
    else if s[0] == '#' then Some(0)
    else
      match FirstHash(s[1..])
      case None => None
      case Some(i) =>
        assert s[..i + 1] == [s[0]] + s[1..][..i];
        Some(i + 1)
  }

  /**
   * getIssueNumberFromTimeEntry: none when the description is unset or holds no `#`;
   * otherwise the (possibly empty) run of digits right after the first `#`.
   */
  function IssueNumber(description: Option<string>): (r: Option<string>)
    ensures r.Some? <==> description.Some? && '#' in description.value
    ensures r.Some? ==> forall i :: 0 <= i < |r.value| ==> IsDigit(r.value[i])
  {
    match description
    case None => None
    case Some(d) =>
      match FirstHash(d)
      case None => None
      case Some(i) => Some(DigitRun(d[i + 1..]))
  }

  /** PHP truthiness of the extracted value, as the `if ($issue_id = ...)` test applies it: NULL, "" and "0" are false. */
  predicate IsTruthy(v: Option<string>) {
    v.Some? && v.value != "" && v.value != "0"
  }

  /** `t` occurs in `s` starting at position `i`. */
  predicate OccursAt(s: string, t: string, i: nat) {
    i + |t| <= |s| && s[i..i + |t|] == t
  }

  /** `strpos($s, $t) !== FALSE`: `t` occurs somewhere in `s`. */
  function Contains(s: string, t: string): (r: bool)
    ensures r <==> exists i: nat :: OccursAt(s, t, i)
    decreases |s|
  {
    if |s| < |t| then false
    else if s[..|t|] == t then
      assert OccursAt(s, t, 0);
      true
    else
      assert forall i: nat :: OccursAt(s, t, i + 1) <==> OccursAt(s[1..], t, i) by {
        forall i: nat ensures OccursAt(s, t, i + 1) <==> OccursAt(s[1..], t, i) {
          if i + 1 + |t| <= |s| {
            var a, b := s[i + 1..i + 1 + |t|], s[1..][i..i + |t|];
            assert forall k :: 0 <= k < |t| ==> a[k] == b[k];
            assert a == b;
          }
        }
      }
      assert !OccursAt(s, t, 0);
      assert forall i: nat :: OccursAt(s, t, i) ==> i > 0 && OccursAt(s[1..], t, i - 1);
      Contains(s[1..], t)
  }

  /** isTimeEntrySynced: the flag occurs somewhere in the description (an unset description never does). */
  predicate IsSynced(description: Option<string>) {
    description.Some? && Contains(description.value, SyncedFlag)
  }

  /** The text appended to a description once Redmine has accepted the entry under record `recordId`. */
  function SyncedMarker(recordId: string): (r: string)
    ensures |r| > 0 && r[0] == ' ' && OccursAt(r, SyncedFlag, 1)
  {
    " " + SyncedFlag + "[" + recordId + "]"
  }

  /** Text before the first `#` cannot hold a `#`, so the first `#` is found right after it. */
  lemma {:induction false} FirstHashAfter(p: string, t: string)
    requires '#' !in p
    ensures FirstHash(p + "#" + t) == Some(|p|)
  {
    if p != [] {
      assert (p + "#" + t)[1..] == p[1..] + "#" + t;
      FirstHashAfter(p[1..], t);
    }
  }

  /** Any description with a `#` splits at its first `#`; the issue number is the digit run after it. */
  lemma {:induction false} IssueNumberAfterFirstHash(p: string, t: string)
    requires '#' !in p
    ensures IssueNumber(Some(p + "#" + t)) == Some(DigitRun(t))
  {
    FirstHashAfter(p, t);
    assert (p + "#" + t)[|p| + 1..] == t;
  }

  /** A digit run ends at the first non-digit, so anything after it is irrelevant. */
  lemma {:induction false} DigitRunAppend(t: string, x: string)
    requires x == [] || !IsDigit(x[0])
    ensures DigitRun(t + x) == DigitRun(t)
  {
    if t == [] {
    } else if IsDigit(t[0]) {
      assert (t + x)[1..] == t[1..] + x;
      DigitRunAppend(t[1..], x);
    }
  }

  /**
   * The issue number is exactly the digits right after the first `#`: neither
   * what follows them nor any later `#` changes the result.
   */
  lemma {:induction false} IssueNumberIgnoresRest(p: string, digits: string, rest: string)
    requires '#' !in p
    requires forall i :: 0 <= i < |digits| ==> IsDigit(digits[i])
    requires rest == [] || !IsDigit(rest[0])
    ensures IssueNumber(Some(p + "#" + digits + rest)) == Some(digits)
  {
    assert p + "#" + digits + rest == p + "#" + (digits + rest);
    IssueNumberAfterFirstHash(p, digits + rest);
    DigitRunAppend(digits, rest);
    DigitRunAllDigits(digits);
  }

  lemma {:induction false} DigitRunAllDigits(digits: string)
    requires forall i :: 0 <= i < |digits| ==> IsDigit(digits[i])
    ensures DigitRun(digits) == digits
  {
    if digits != [] {
      DigitRunAllDigits(digits[1..]);
    }
  }

  /** Appending text that starts with a non-digit after a description that has a `#` keeps its issue number. */
  lemma {:induction false} AppendKeepsIssueNumber(d: string, x: string)
    requires '#' in d
    requires x == [] || !IsDigit(x[0])
    ensures IssueNumber(Some(d + x)) == IssueNumber(Some(d))
  {
    var i := FirstHash(d).value;
    var p, t := d[..i], d[i + 1..];
    assert d == p + "#" + t;
    assert d + x == p + "#" + (t + x);
    IssueNumberAfterFirstHash(p, t);
    IssueNumberAfterFirstHash(p, t + x);
    DigitRunAppend(t, x);
  }

  /**
   * The marker round trip: once the marker is appended to a description that names
   * an issue, the description reads as synced and still names the same issue.
   */
  lemma {:induction false} MarkerRoundTrip(d: string, recordId: string)
    requires IsTruthy(IssueNumber(Some(d)))
    ensures IssueNumber(Some(d + SyncedMarker(recordId))) == IssueNumber(Some(d))
    ensures IsSynced(Some(d + SyncedMarker(recordId)))
  {
    var m := SyncedMarker(recordId);
    assert m == [' '] + SyncedFlag + "[" + recordId + "]";
    assert m[0] == ' ';
    AppendKeepsIssueNumber(d, m);
    var marked := d + m;
    assert marked[|d| + 1..|d| + 1 + |SyncedFlag|] == SyncedFlag;
    assert OccursAt(marked, SyncedFlag, |d| + 1);
  }

  /** "Fix #42, #99" names issue 42: the first `#` wins. */
  lemma FirstReferenceWins()
    ensures IssueNumber(Some("Fix #42, #99")) == Some("42")
  {
    IssueNumberIgnoresRest("Fix ", "42", ", #99");
    assert "Fix " + "#" + "42" + ", #99" == "Fix #42, #99";
  }

  /**
   * "#synced #42" names no issue: the first `#` is followed by a letter, the
   * captured group is empty, and "" is false.
   */
  lemma FlagBeforeReferenceHidesIssue()
    ensures IssueNumber(Some("#synced #42")) == Some("")
    ensures !IsTruthy(IssueNumber(Some("#synced #42")))
  {
    IssueNumberIgnoresRest("", "", "synced #42");
    assert "" + "#" + "" + "synced #42" == "#synced #42";
  }
}
