/**
 * `PrefixLogger` and `getLogger` of src/logger.ts: a prefix-scoped, leveled
 * view that forwards every line to the one shared sink.
 */
module Facade {
  import opened Wrappers
  import opened Style
  import Text
  import opened Logger

  /** The argument of `error`: a string, or a structured error rendered by `util.inspect`. */
  datatype ErrorArg = Message(text: string) | Inspected(rendering: string)

  /** The text `error` logs for its argument, before colouring. */
  function ErrorText(e: ErrorArg): string
  {
    match e
    case Message(text) => text
    case Inspected(rendering) => rendering
  }

  /** `this.prefix + " > " + subname`. */
  function ChildPrefix(prefix: string, subname: string): string
  {
    prefix + " > " + subname
  }

  /** The prefix of the logger reached from `root` by a chain of `sublogger` calls. */
  function PathPrefix(root: string, names: seq<string>): string
    decreases |names|
  {
    if names == [] then root else ChildPrefix(PathPrefix(root, names[..|names| - 1]), names[|names| - 1])
  }

  /**
   * A chain of subloggers renders as the root prefix followed by " > " and the
   * names joined by " > "; from an empty root the rendered prefix therefore
   * starts with " > ".
   */
  lemma {:induction false} PathPrefixJoins(root: string, names: seq<string>)
    requires names != []
    ensures PathPrefix(root, names) == root + " > " + Text.Join(names, " > ")
    decreases |names|
  {
    var k := |names| - 1;
    if k == 0 {
      assert Text.Join(names, " > ") == names[0];
    } else {
      PathPrefixJoins(root, names[..k]);
      Text.JoinSnoc(names[..k], names[k], " > ");
      assert names[..k] + [names[k]] == names;
    }
  }

  class PrefixLogger {
    const prefix: string
    /** The process-wide sink (the module-level `logger` of the source). */
    const sink: BaseLogger

    constructor (sink: BaseLogger, prefix: string)
      ensures this.sink == sink && this.prefix == prefix
    {
      this.sink := sink;
      this.prefix := prefix;
    }

    /** The line every level method hands to the sink for `body`. */
    function Line(body: string, now: string): string
    {
      FormatLine(now, Some(prefix), body)
    }

    /** `log(msg)`: uncoloured, queued. */
    method Log(msg: string, now: string)
      requires sink.Valid()
      modifies sink
      ensures sink.Valid() && sink.Recorded(Line(msg, now), true)
    {
      sink.Log(msg, Some(prefix), true, now);
    }

    /** `error(msg)`: red, queued; a structured error is logged as its `util.inspect` rendering. */
    method Error(msg: ErrorArg, now: string)
      requires sink.Valid()
      modifies sink
      ensures sink.Valid() && sink.Recorded(Line(Paint(Red, ErrorText(msg)), now), true)
    {
      var text := ErrorText(msg);
      sink.Log(Paint(Red, text), Some(prefix), true, now);
    }

    /** `warn(msg)`: yellow, queued. */
    method Warn(msg: string, now: string)
      requires sink.Valid()
      modifies sink
      ensures sink.Valid() && sink.Recorded(Line(Paint(Yellow, msg), now), true)
    {
      sink.Log(Paint(Yellow, msg), Some(prefix), true, now);
    }

    /** `sublogger(subname)`: a new view on the same sink; this one is unchanged. */
    method Sublogger(subname: string) returns (child: PrefixLogger)
      ensures fresh(child)
      ensures child.sink == sink && child.prefix == ChildPrefix(prefix, subname)
    {
      child := new PrefixLogger(sink, ChildPrefix(prefix, subname));
    }

    /** `info(msg)`: blue, queued. */
    method Info(msg: string, now: string)
      requires sink.Valid()
      modifies sink
      ensures sink.Valid() && sink.Recorded(Line(Paint(Blue, msg), now), true)
    {
      sink.Log(Paint(Blue, msg), Some(prefix), true, now);
    }

    /** `verbose(msg)`: gray, never queued. */
    method Verbose(msg: string, now: string)
      requires sink.Valid()
      modifies sink
      ensures sink.Valid() && sink.Recorded(Line(Paint(Gray, msg), now), false)
    {
      sink.Log(Paint(Gray, msg), Some(prefix), false, now);
    }

    /** `ok(msg)`: green, queued. */
    method Ok(msg: string, now: string)
      requires sink.Valid()
      modifies sink
      ensures sink.Valid() && sink.Recorded(Line(Paint(Green, msg), now), true)
    {
      sink.Log(Paint(Green, msg), Some(prefix), true, now);
    }
  }

  /** `getLogger(prefix)`: a new view with the given prefix on the shared sink. */
  method GetLogger(sink: BaseLogger, prefix: string) returns (l: PrefixLogger)
    ensures fresh(l) && l.sink == sink && l.prefix == prefix
  {
    l := new PrefixLogger(sink, prefix);
  }
}
