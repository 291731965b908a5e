/** The action history of `next_command`: each non-empty `last_command` a client reports is
    stamped with the time of day and appended, and the list never grows past `MAX_HISTORY`
    entries, the oldest one being dropped first. This module gives the history's value
    semantics; `Service.DecisionService` holds it as mutable state. */
module History {
  import opened Text
  import opened Config
  import opened Clock

  /** `f"[{time}] {command}"`. */
  function Entry(time: string, command: string): string {
    "[" + time + "] " + command
  }

  /** An entry stamped with `HH:MM` holds the time at positions 1..6 and the command from
      position 8 on, so both can be read back from it; in particular it ends with the command. */
  lemma EntryParts(t: Timestamp, command: string)
    ensures var e := Entry(HourMinute(t), command);
      && |e| == |command| + 8
      && e[0] == '[' && e[1..6] == HourMinute(t) && e[6..8] == "] "
      && e[8..] == command
      && EndsWith(e, command)
  {
  }

  /** `action_history.append(entry)` followed by `action_history.pop(0)` when the list has
      grown past `MAX_HISTORY`. */
  function Push(h: seq<string>, e: string): seq<string> {
    var grown := h + [e];
    if |grown| > MaxHistory then grown[1..] else grown
  }

  /** The update of the history for one request: nothing for an empty `last_command`,
      otherwise one entry stamped with the request's `HH:MM`. */
  function Record(h: seq<string>, lastCommand: string, at: Timestamp): seq<string> {
    if lastCommand == "" then h else Push(h, Entry(HourMinute(at), lastCommand))
  }

  /** The history never holds more than `MAX_HISTORY` entries. */
  predicate Bounded(h: seq<string>) {
    |h| <= MaxHistory
  }

  /** Pushing onto a bounded history keeps it bounded and puts the new entry last. Below the
      bound nothing is lost; at the bound exactly the oldest entry is dropped and the others
      keep their order. */
  lemma PushSpec(h: seq<string>, e: string)
    requires Bounded(h)
    ensures Bounded(Push(h, e))
    ensures |Push(h, e)| > 0 && Push(h, e)[|Push(h, e)| - 1] == e
    ensures |h| < MaxHistory ==> Push(h, e) == h + [e]
    ensures |h| == MaxHistory ==> |Push(h, e)| == MaxHistory && Push(h, e) == h[1..] + [e]
  {
  }

  /** On a bounded history, a push keeps the latest `MAX_HISTORY` entries of the extended list. */
  lemma PushKeepsLatest(h: seq<string>, e: string)
    requires Bounded(h)
    ensures Push(h, e) == Last(h + [e], MaxHistory)
  {
  }

  /** An empty `last_command` leaves the history as it was; a non-empty one adds exactly one
      entry, last, stamped with `HH:MM` and ending with the command, and keeps the history
      bounded. */
  lemma RecordSpec(h: seq<string>, lastCommand: string, at: Timestamp)
    requires Bounded(h)
    ensures Bounded(Record(h, lastCommand, at))
    ensures lastCommand == "" ==> Record(h, lastCommand, at) == h
    ensures lastCommand != "" ==>
      var r := Record(h, lastCommand, at);
      && Record(h, lastCommand, at) == Last(h + [Entry(HourMinute(at), lastCommand)], MaxHistory)
      && |r| > 0 && r[|r| - 1] == Entry(HourMinute(at), lastCommand)
      && EndsWith(r[|r| - 1], lastCommand)
  {
  }

  /** After a non-empty `last_command` is recorded, its entry is the newest of the recent
      entries the next user turn lists. */
  lemma RecordedEntryIsRecent(h: seq<string>, lastCommand: string, at: Timestamp)
    requires Bounded(h) && lastCommand != ""
    ensures var recent := Last(Record(h, lastCommand, at), RecentLimit);
      |recent| > 0 && recent[|recent| - 1] == Entry(HourMinute(at), lastCommand)
  {
  }

  /** A run of pushes, oldest first. */
  function PushAll(h: seq<string>, es: seq<string>): seq<string>
    decreases |es|
  {
    if es == [] then h else PushAll(Push(h, es[0]), es[1..])
  }

  lemma LastOfAppended(s: seq<string>, t: seq<string>, n: nat)
    ensures Last(Last(s, n) + t, n) == Last(s + t, n)
  {
  }

  /** However many commands are reported, starting from a bounded history the history is the
      latest `MAX_HISTORY` entries of everything recorded, in the order they came. */
  lemma {:induction false} PushAllKeepsLatest(h: seq<string>, es: seq<string>)
    requires Bounded(h)
    ensures PushAll(h, es) == Last(h + es, MaxHistory)
    ensures Bounded(PushAll(h, es))
    decreases |es|
  {
    if es == [] {
      assert h + es == h;
    } else {
      var h1 := Push(h, es[0]);
      PushSpec(h, es[0]);
      PushKeepsLatest(h, es[0]);
      PushAllKeepsLatest(h1, es[1..]);
      LastOfAppended(h + [es[0]], es[1..], MaxHistory);
      assert h + [es[0]] + es[1..] == h + es;
    }
  }
}
