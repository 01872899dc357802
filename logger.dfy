/**
 * The logging sink of src/logger.ts: `BaseLogger`, which keeps a bounded
 * buffer of recent lines and a FIFO of lines waiting for the webhook, and
 * drains that FIFO one line per timer tick.
 */
module Logger {
  import opened Wrappers
  import Text
  import opened Style

  /** Capacity of the recent-lines buffer `logs`. */
  const Capacity: nat := 50

  /** Text put in front of a line that is queued again after a rejected delivery. */
  const DelayedPrefix: string := "[DELAYED LOG EVENT] "

  /** Prefix of the diagnostic lines a failed delivery writes. */
  const DiagnosticPrefix: string := "logger"

  // ---------------------------------------------------------------------
  // Formatting a line

  /** `BaseLogger.formatdate`, given the ISO-8601 text of the current time. */
  function Stamp(now: string): (r: string)
    ensures '\n' !in now ==> |r| == |now| + 14 && r[..5] == Open(Cyan) && r[7..|r| - 7] == now
  {
    Paint(Cyan, "[ " + now + "] ")
  }

  /** The prefix segment: empty when the prefix is absent or the empty string (both falsy). */
  function PrefixTag(prefix: Option<string>): string
  {
    if prefix.Some? && prefix.value != "" then Paint(Magenta, "[" + prefix.value + "] ") else ""
  }

  /** The full line `log` stores, prints and queues. */
  function FormatLine(now: string, prefix: Option<string>, msg: string): (line: string)
    ensures |line| >= |Stamp(now)| + |msg|
    ensures line[..|Stamp(now)|] == Stamp(now) && line[|line| - |msg|..] == msg
  {
    Stamp(now) + PrefixTag(prefix) + msg
  }

  /** The two shapes of a formatted line. */
  lemma FormatLineShape(now: string, prefix: Option<string>, msg: string)
    ensures prefix.Some? && prefix.value != "" ==>
      FormatLine(now, prefix, msg) == Stamp(now) + Paint(Magenta, "[" + prefix.value + "] ") + msg
    ensures prefix == None || prefix == Some("") ==> FormatLine(now, prefix, msg) == Stamp(now) + msg
  {
  }

  /** Lines with the same time and prefix are equal exactly when their messages are. */
  lemma FormatLineInjective(now: string, prefix: Option<string>, m1: string, m2: string)
    ensures FormatLine(now, prefix, m1) == FormatLine(now, prefix, m2) <==> m1 == m2
  {
    if FormatLine(now, prefix, m1) == FormatLine(now, prefix, m2) {
      var head := Stamp(now) + PrefixTag(prefix);
      assert FormatLine(now, prefix, m1)[|head|..] == m1;
      assert FormatLine(now, prefix, m2)[|head|..] == m2;
    }
  }

  // ---------------------------------------------------------------------
  // The recent-lines buffer

  /** The smaller of two counts. */
  function Min(a: nat, b: nat): nat { if a <= b then a else b }

  /** The last `n` elements of `s` (all of them when there are fewer). */
  function LastN<T>(s: seq<T>, n: nat): (r: seq<T>)
    ensures |r| == Min(|s|, n)
  {
    s[|s| - Min(|s|, n)..]
  }

  /** `logs.push(line)` followed by `logs.shift()` when the length exceeds the capacity. */
  function Retain(logs: seq<string>, line: string): (r: seq<string>)
    ensures |logs| <= Capacity ==> |r| <= Capacity && r == LastN(logs + [line], Capacity)
  {
    var grown := logs + [line];
    if |grown| > Capacity then grown[1..] else grown
  }

  /** What `dolog` leaves in `logs`: with storage off the buffer is untouched. */
  function Stored(storelog: bool, logs: seq<string>, line: string): seq<string>
  {
    if storelog then Retain(logs, line) else logs
  }

  /** Storing the lines one after another, as repeated `dolog` calls with storage on do. */
  function RetainAll(logs: seq<string>, lines: seq<string>): seq<string>
    decreases |lines|
  {
    if lines == [] then logs
    else Retain(RetainAll(logs, lines[..|lines| - 1]), lines[|lines| - 1])
  }

  /** Trimming before appending and trimming after gives the same last `n`. */
  lemma LastNAppend<T>(s: seq<T>, x: T, n: nat)
    ensures LastN(LastN(s, n) + [x], n) == LastN(s + [x], n)
  {
  }

  /**
   * After any sequence of stored lines the buffer holds the last (at most 50)
   * lines, oldest first.
   */
  lemma {:induction false} RetainAllKeepsLast(logs: seq<string>, lines: seq<string>)
    requires |logs| <= Capacity
    ensures RetainAll(logs, lines) == LastN(logs + lines, Capacity)
    decreases |lines|
  {
    if lines != [] {
      var init, last := lines[..|lines| - 1], lines[|lines| - 1];
      RetainAllKeepsLast(logs, init);
      LastNAppend(logs + init, last, Capacity);
      assert logs + init + [last] == logs + lines;
    }
  }

  /** Starting from an empty buffer, N stored lines leave exactly the last min(N, 50). */
  lemma RetainAllFromEmpty(lines: seq<string>)
    ensures |RetainAll([], lines)| == Min(|lines|, Capacity)
    ensures RetainAll([], lines) == lines[|lines| - Min(|lines|, Capacity)..]
  {
    RetainAllKeepsLast([], lines);
    assert [] + lines == lines;
  }

  // ---------------------------------------------------------------------
  // One delivery tick

  /**
   * What one tick came to: `fetch` answered with a status, `fetch` failed, or
   * `new URL` rejected the webhook URL (a TypeError thrown after the head was
   * taken and before anything was sent).
   */
  datatype Delivery = Response(status: nat, statusText: string) | TransportError(reason: string) | InvalidUrl

  /** The statuses a tick treats as delivered. */
  predicate Accepted(status: nat)
  {
    status == 200 || status == 201 || status == 204
  }

  /** The delivery made no copy of the line come back to the queue. */
  predicate Consumed(d: Delivery)
  {
    d.TransportError? || d.InvalidUrl? || Accepted(d.status)
  }

  /** The `content` field of the POST body for a queued line. */
  function Payload(line: string): (content: string)
    ensures |content| == |Text.Escape(line)| + 11
    ensures content[..8] == "```ansi\n" && content[|content| - 3..] == Text.Fence
    ensures Text.ZeroWidth !in line ==> Text.Strip(content[8..|content| - 3]) == line
  {
    Text.StripEscape(line);
    "```ansi\n" + Text.Escape(line) + Text.Fence
  }

  /** The outbound request of one tick. */
  datatype Request = Request(url: string, content: string)

  /** A URL is configured and it is not the empty string (`this._webhook` is truthy). */
  predicate HasUrl(webhook: Option<string>)
  {
    webhook.Some? && webhook.value != ""
  }

  /** The queue after a tick that took its head and got the outcome `d`. */
  function Requeue(queue: seq<string>, d: Delivery): (r: seq<string>)
    requires queue != []
    ensures |r| >= |queue| - 1 && r[..|queue| - 1] == queue[1..]
    ensures |r| == |queue| <==> !Consumed(d)
    ensures Consumed(d) ==> |r| == |queue| - 1
    ensures !Consumed(d) ==> r[|queue| - 1] == DelayedPrefix + queue[0]
  {
    if Consumed(d) then queue[1..] else queue[1..] + [DelayedPrefix + queue[0]]
  }

  /** A tick as a whole: nothing happens to an empty queue. */
  function Tick(queue: seq<string>, d: Delivery): seq<string>
  {
    if queue == [] then queue else Requeue(queue, d)
  }

  /** The queue after a run of ticks with the given outcomes. */
  function Drain(queue: seq<string>, ds: seq<Delivery>): seq<string>
    decreases |ds|
  {
    if ds == [] then queue else Tick(Drain(queue, ds[..|ds| - 1]), ds[|ds| - 1])
  }

  /** How every diagnostic of a failed delivery starts. */
  const DiagnosticHead: string := "failed to send log to discord: "

  /** How the diagnostic of a rejected delivery ends. */
  const RequeuingTail: string := ", re-queuing..."

  /** How the diagnostic of a failed `fetch` ends. */
  const DroppingTail: string := ", WILL NOT try re-queuing..."

  /**
   * The diagnostic message a tick writes, if any: none after an accepted
   * status or an invalid URL; otherwise a message saying whether the line
   * was queued again.
   */
  function Diagnostic(d: Delivery): (note: Option<string>)
    ensures note.None? <==> d.InvalidUrl? || (d.Response? && Accepted(d.status))
    ensures note.Some? ==> DiagnosticHead <= note.value
    ensures d.Response? && note.Some? ==>
      |note.value| >= |RequeuingTail| && note.value[|note.value| - |RequeuingTail|..] == RequeuingTail
    ensures d.TransportError? ==>
      note.Some? && |note.value| >= |DroppingTail| && note.value[|note.value| - |DroppingTail|..] == DroppingTail
  {
    match d
    case Response(status, text) =>
      if Accepted(status) then None
      else Some(DiagnosticHead + Text.DecimalString(status) + " " + text + RequeuingTail)
    case TransportError(reason) =>
      Some(DiagnosticHead + reason + DroppingTail)
    case InvalidUrl => None
  }

  /** Ticks never make the queue longer. */
  lemma {:induction false} DrainNeverGrows(queue: seq<string>, ds: seq<Delivery>)
    ensures |Drain(queue, ds)| <= |queue|
    decreases |ds|
  {
    if ds != [] {
      DrainNeverGrows(queue, ds[..|ds| - 1]);
    }
  }

  /** k consuming ticks (k at most the queue length) remove exactly the first k lines. */
  lemma {:induction false} DrainConsumed(queue: seq<string>, ds: seq<Delivery>)
    requires |ds| <= |queue|
    requires forall i :: 0 <= i < |ds| ==> Consumed(ds[i])
    ensures Drain(queue, ds) == queue[|ds|..]
    decreases |ds|
  {
    if ds != [] {
      DrainConsumed(queue, ds[..|ds| - 1]);
      assert Consumed(ds[|ds| - 1]);
    }
  }

  /** Each line with the delayed marker in front. */
  function MarkDelayed(lines: seq<string>): (r: seq<string>)
    ensures |r| == |lines|
    decreases |lines|
  {
    if lines == [] then [] else MarkDelayed(lines[..|lines| - 1]) + [DelayedPrefix + lines[|lines| - 1]]
  }

  /**
   * k rejected ticks (k at most the queue length) move the first k lines,
   * marked as delayed and in their old order, behind the rest.
   */
  lemma {:induction false} DrainRejected(queue: seq<string>, ds: seq<Delivery>)
    requires |ds| <= |queue|
    requires forall i :: 0 <= i < |ds| ==> !Consumed(ds[i])
    ensures Drain(queue, ds) == queue[|ds|..] + MarkDelayed(queue[..|ds|])
    decreases |ds|
  {
    if ds != [] {
      var k := |ds| - 1;
      DrainRejected(queue, ds[..k]);
      var d := ds[k];
      assert !Consumed(d);
      var before := queue[k..] + MarkDelayed(queue[..k]);
      assert before != [] && before[0] == queue[k];
      assert queue[..k + 1][..k] == queue[..k];
      calc {
        Drain(queue, ds);
        Tick(before, d);
        Requeue(before, d);
        before[1..] + [DelayedPrefix + before[0]];
        { assert before[1..] == queue[k + 1..] + MarkDelayed(queue[..k]); }
        queue[k + 1..] + (MarkDelayed(queue[..k]) + [DelayedPrefix + queue[k]]);
        queue[k + 1..] + MarkDelayed(queue[..k + 1]);
      }
    }
  }

  /** One line whose every delivery is rejected collects one marker per tick. */
  lemma {:induction false} RejectedLineGrowsMarkers(line: string, ds: seq<Delivery>)
    requires forall i :: 0 <= i < |ds| ==> !Consumed(ds[i])
    ensures Drain([line], ds) == [Markers(|ds|) + line]
    decreases |ds|
  {
    if ds != [] {
      RejectedLineGrowsMarkers(line, ds[..|ds| - 1]);
      assert !Consumed(ds[|ds| - 1]);
      var before := Drain([line], ds[..|ds| - 1]);
      assert before == [Markers(|ds| - 1) + line];
      assert Drain([line], ds) == Requeue(before, ds[|ds| - 1]);
      assert Requeue(before, ds[|ds| - 1]) == [DelayedPrefix + before[0]];
      assert DelayedPrefix + (Markers(|ds| - 1) + line) == Markers(|ds|) + line;
    } else {
      assert Markers(0) + line == line;
    }
  }

  /** `n` copies of the delayed marker. */
  function Markers(n: nat): string
  {
    if n == 0 then "" else DelayedPrefix + Markers(n - 1)
  }

  // ---------------------------------------------------------------------
  // The sink

  class BaseLogger {
    /** Recent lines, oldest first (only filled while `storelog` is on). */
    var logs: seq<string>
    var storelog: bool
    /** `_webhook`. */
    var webhook: Option<string>
    /** `webhook_queue`, head first. */
    var queue: seq<string>
    /** `webhook_interval !== undefined`. */
    var intervalSet: bool
    /** Number of intervals currently armed to run the tick. */
    var armedIntervals: nat
    /** Lines written to the console, oldest first. */
    ghost var console: seq<string>
    /** Lines passed to the `onlog` callback, oldest first. */
    ghost var observed: seq<string>

    ghost predicate Valid()
      reads this
    {
      && |logs| <= Capacity
      && (intervalSet <==> webhook.Some?)
      && armedIntervals == (if intervalSet then 1 else 0)
    }

    constructor ()
      ensures Valid()
      ensures logs == [] && !storelog && webhook == None && queue == []
      ensures !intervalSet && armedIntervals == 0
      ensures console == [] && observed == []
    {
      logs, storelog, webhook, queue := [], false, None, [];
      intervalSet, armedIntervals := false, 0;
      console, observed := [], [];
    }

    /** The whole effect of handing `line` to `dolog` and, if asked, to `logWebhook`. */
    twostate predicate Recorded(line: string, enqueued: bool)
      reads this
    {
      && logs == Stored(old(storelog), old(logs), line)
      && queue == old(queue) + (if enqueued then [line] else [])
      && console == old(console) + [line]
      && observed == old(observed) + [line]
      && storelog == old(storelog) && webhook == old(webhook)
      && intervalSet == old(intervalSet) && armedIntervals == old(armedIntervals)
    }

    /** The `storelog` setter. */
    method SetStoreLog(value: bool)
      requires Valid()
      modifies this
      ensures Valid()
      ensures storelog == value
      ensures logs == old(logs) && queue == old(queue) && webhook == old(webhook)
      ensures intervalSet == old(intervalSet) && armedIntervals == old(armedIntervals)
      ensures console == old(console) && observed == old(observed)
    {
      storelog := value;
    }

    /**
     * The `webhook` setter: store the URL, clear the interval if one is set,
     * and arm a new one. Exactly one interval is armed afterwards, however
     * often the setter runs. The interval is taken to call the tick on this
     * object (src/logger.ts:64 passes the method unbound).
     */
    method SetWebhook(url: string)
      requires Valid()
      modifies this
      ensures Valid()
      ensures webhook == Some(url) && intervalSet && armedIntervals == 1
      ensures logs == old(logs) && storelog == old(storelog) && queue == old(queue)
      ensures console == old(console) && observed == old(observed)
    {
      webhook := Some(url);
      if intervalSet {
        armedIntervals := armedIntervals - 1;
      }
      armedIntervals := armedIntervals + 1;
      intervalSet := true;
    }

    /** `log(msg, prefix, logWebhook)`: format the line, record it, and queue it if asked. */
    method Log(msg: string, prefix: Option<string>, logWebhook: bool, now: string)
      requires Valid()
      modifies this
      ensures Valid()
      ensures Recorded(FormatLine(now, prefix, msg), logWebhook)
    {
      var fullMsg := FormatLine(now, prefix, msg);
      DoLog(fullMsg, false);
      if logWebhook {
        LogWebhook(fullMsg);
      }
    }

    /** `dolog(msg, nolog)`: print unless `nolog`, store if `storelog`, notify `onlog`. */
    method DoLog(msg: string, nolog: bool)
      requires Valid()
      modifies this
      ensures Valid()
      ensures logs == Stored(old(storelog), old(logs), msg)
      ensures console == old(console) + (if nolog then [] else [msg])
      ensures observed == old(observed) + [msg]
      ensures queue == old(queue) && storelog == old(storelog) && webhook == old(webhook)
      ensures intervalSet == old(intervalSet) && armedIntervals == old(armedIntervals)
    {
      if !nolog {
        console := console + [msg];
      }
      if storelog {
        logs := logs + [msg];
        if |logs| > Capacity {
          logs := logs[1..];
        }
      }
      observed := observed + [msg];
    }

    /** `logWebhook(msg)`: append to the tail of the queue. */
    method LogWebhook(msg: string)
      requires Valid()
      modifies this
      ensures Valid()
      ensures queue == old(queue) + [msg]
      ensures logs == old(logs) && storelog == old(storelog) && webhook == old(webhook)
      ensures intervalSet == old(intervalSet) && armedIntervals == old(armedIntervals)
      ensures console == old(console) && observed == old(observed)
    {
      queue := queue + [msg];
    }

    /**
     * `sendWebhook`: one drain tick, taken as one atomic step whose outcome
     * is `outcome`. With `InvalidUrl` the head is lost and neither a request
     * nor a diagnostic follows. Returns the request it issues, sent to the
     * configured URL (src/logger.ts:100 reads it from the environment
     * instead). A diagnostic is logged without queueing it.
     */
    method SendWebhook(outcome: Delivery, now: string) returns (request: Option<Request>)
      requires Valid()
      modifies this
      ensures Valid()
      ensures old(queue) == [] || !HasUrl(old(webhook)) ==>
        request == None && queue == old(queue) && logs == old(logs)
        && console == old(console) && observed == old(observed)
      ensures old(queue) != [] && HasUrl(old(webhook)) ==>
        && request == (if outcome.InvalidUrl? then None else Some(Request(old(webhook).value, Payload(old(queue)[0]))))
        && queue == Requeue(old(queue), outcome)
        && match Diagnostic(outcome)
           case None => logs == old(logs) && console == old(console) && observed == old(observed)
           case Some(note) =>
             var line := FormatLine(now, Some(DiagnosticPrefix), note);
             logs == Stored(old(storelog), old(logs), line)
             && console == old(console) + [line] && observed == old(observed) + [line]
      ensures storelog == old(storelog) && webhook == old(webhook)
      ensures intervalSet == old(intervalSet) && armedIntervals == old(armedIntervals)
    {
      if |queue| < 1 || !HasUrl(webhook) {
        return None;
      }
      var nextMsg := queue[0];
      queue := queue[1..];
      if outcome.InvalidUrl? {
        return None;
      }
      request := Some(Request(webhook.value, Payload(nextMsg)));
      // A rejected status and a failed `fetch` both log; only the former re-queues.
      var note := Diagnostic(outcome);
      if note.Some? {
        Log(note.value, Some(DiagnosticPrefix), false, now);
      }
      if !Consumed(outcome) {
        queue := queue + [DelayedPrefix + nextMsg];
      }
    }
  }
}
