/**
 * The chalk styles used by src/logger.ts, as the ANSI SGR foreground codes
 * chalk emits when colour output is enabled.
 */
module Style {
  import Text

  datatype Colour = Cyan | Magenta | Red | Yellow | Blue | Gray | Green

  /** The SGR parameter that opens a colour. */
  function Code(c: Colour): string
  {
    match c
    case Red => "31"
    case Green => "32"
    case Yellow => "33"
    case Blue => "34"
    case Magenta => "35"
    case Cyan => "36"
    case Gray => "90"
  }

  const Esc: char := '\U{1b}'

  /** The SGR sequence that resets the foreground colour. */
  const Close: string := [Esc] + "[39m"

  /** The SGR sequence that opens a colour: ESC, `[`, the code, `m`. */
  function Open(c: Colour): (r: string)
    ensures |r| == 5 && r[0] == Esc
  {
    [Esc] + "[" + Code(c) + "m"
  }

  /**
   * chalk's line-break handling: every `\n`, and every `\r\n` taken as one,
   * is closed before and re-opened after, so that a colour never spans a
   * line break.
   */
  function Encase(c: Colour, s: string): (r: string)
    ensures '\n' !in s ==> r == s
    decreases |s|
  {
    if s == [] then []
    else if |s| >= 2 && s[0] == '\r' && s[1] == '\n' then Close + "\r\n" + Open(c) + Encase(c, s[2..])
    else if s[0] == '\n' then Close + "\n" + Open(c) + Encase(c, s[1..])
    else [s[0]] + Encase(c, s[1..])
  }

  /**
   * `chalk.<colour>(s)`: the empty string stays empty; any other text is
   * framed by the opening and closing codes. Text without a line break is
   * exactly the frame around the text.
   */
  function Paint(c: Colour, s: string): (r: string)
    ensures r == [] <==> s == []
    ensures s != [] ==> |r| >= 10 && r[..5] == Open(c) && r[|r| - 5..] == Close
    ensures s != [] && '\n' !in s ==> |r| == |s| + 10 && r[5..|r| - 5] == s
  {
    if s == [] then [] else Open(c) + Encase(c, s) + Close
  }

  /**
   * Without carriage returns, the inside of the frame is the text split at
   * its line breaks and joined back with close, line break, open.
   */
  lemma {:induction false} EncaseSplitsLines(c: Colour, s: string)
    requires '\r' !in s
    ensures Encase(c, s) == Text.Join(Text.Split(s, "\n"), Close + "\n" + Open(c))
    decreases |s|
  {
    var glue := Close + "\n" + Open(c);
    if s == [] {
    } else if s[0] == '\n' {
      var rest := Text.Split(s[1..], "\n");
      assert '\r' !in s[1..];
      EncaseSplitsLines(c, s[1..]);
      assert Encase(c, s) == glue + Encase(c, s[1..]);
      assert s[..1] == "\n";
      assert Text.Split(s, "\n") == [""] + rest;
      assert ([""] + rest)[1..] == rest;
      assert Text.Join([""] + rest, glue) == "" + glue + Text.Join(rest, glue);
    } else {
      var rest := Text.Split(s[1..], "\n");
      assert '\r' !in s[1..];
      EncaseSplitsLines(c, s[1..]);
      assert Encase(c, s) == [s[0]] + Encase(c, s[1..]);
      assert s[..1] != "\n";
      assert Text.Split(s, "\n") == [[s[0]] + rest[0]] + rest[1..];
      Text.JoinConsHead(s[0], rest, glue);
    }
  }
}
