/**
 * String operations behind the webhook payload of src/logger.ts:
 * JavaScript's `String.prototype.split` with a non-empty separator, its
 * inverse `Array.prototype.join`, and the triple-backtick escaping built
 * from the two.
 */
module Text {

  /** The Discord code-fence delimiter. */
  const Fence: string := "```"

  /** U+200B ZERO WIDTH SPACE, the character used to break up a fence. */
  const ZeroWidth: char := '​'

  /** The lookalike that replaces every fence: backtick, ZWSP, backtick, ZWSP, backtick. */
  const Lookalike: string := ['`', ZeroWidth, '`', ZeroWidth, '`']

  /** `t` occurs in `s` starting at index `j`. */
  predicate OccursAt(s: string, t: string, j: nat)
  {
    j + |t| <= |s| && s[j..j + |t|] == t
  }

  /** `t` occurs somewhere in `s`. */
  predicate Contains(s: string, t: string)
  {
    exists j: nat :: j <= |s| && OccursAt(s, t, j)
  }

  /**
   * `s.split(sep)`: the pieces between the non-overlapping occurrences of
   * `sep`, found from left to right. There is always at least one piece.
   */
  function Split(s: string, sep: string): (parts: seq<string>)
    requires sep != []
    ensures |parts| >= 1
    decreases |s|
  {
    if |s| < |sep| then [s]
    else if s[..|sep|] == sep then [""] + Split(s[|sep|..], sep)
    else
      var rest := Split(s[1..], sep);
      [[s[0]] + rest[0]] + rest[1..]
  }

  /** The summed lengths of the pieces. */
  function TotalLength(parts: seq<string>): nat
    decreases |parts|
  {
    if parts == [] then 0 else |parts[0]| + TotalLength(parts[1..])
  }

  /** `parts.join(sep)`. */
  function Join(parts: seq<string>, sep: string): string
    decreases |parts|
  {
    if parts == [] then ""
    else if |parts| == 1 then parts[0]
    else parts[0] + sep + Join(parts[1..], sep)
  }

  /** A join is the pieces in order with one separator between each two, so its length is theirs plus the separators'. */
  lemma {:induction false} JoinLength(parts: seq<string>, sep: string)
    ensures parts == [] ==> Join(parts, sep) == []
    ensures parts != [] ==> |Join(parts, sep)| == TotalLength(parts) + (|parts| - 1) * |sep|
    decreases |parts|
  {
    if |parts| > 1 {
      JoinLength(parts[1..], sep);
    }
  }

  /**
   * `msg.split("```").join(Lookalike)`: the body sent inside the code fence.
   * Each fence the split cuts at is widened by the two zero-width spaces.
   */
  function Escape(msg: string): (r: string)
    ensures |r| == |msg| + 2 * (|Split(msg, Fence)| - 1)
  {
    var parts := Split(msg, Fence);
    JoinSplit(msg, Fence);
    JoinLength(parts, Fence);
    JoinLength(parts, Lookalike);
    Join(parts, Lookalike)
  }

  /** Joining with one more piece at the end appends a separator and that piece: the pieces stay in order. */
  lemma {:induction false} JoinSnoc(parts: seq<string>, last: string, sep: string)
    requires parts != []
    ensures Join(parts + [last], sep) == Join(parts, sep) + sep + last
    decreases |parts|
  {
    if |parts| == 1 {
      assert (parts + [last])[1..] == [last];
    } else {
      JoinSnoc(parts[1..], last, sep);
      assert (parts + [last])[1..] == parts[1..] + [last];
    }
  }

  /** An occurrence one position into `[c] + t` is an occurrence in `t`, and back. */
  lemma OccursShift(c: char, t: string, sep: string, j: nat)
    ensures OccursAt([c] + t, sep, j + 1) <==> OccursAt(t, sep, j)
  {
    if j + |sep| <= |t| {
      assert ([c] + t)[j + 1..j + 1 + |sep|] == t[j..j + |sep|];
    }
  }

  /** Deletes every zero-width space. */
  function Strip(s: string): string
    decreases |s|
  {
    if s == [] then []
    else if s[0] == ZeroWidth then Strip(s[1..])
    else [s[0]] + Strip(s[1..])
  }

  /** Putting one more character in front of the first piece puts it in front of the join. */
  lemma {:induction false} JoinConsHead(c: char, parts: seq<string>, sep: string)
    requires |parts| >= 1
    ensures Join([[c] + parts[0]] + parts[1..], sep) == [c] + Join(parts, sep)
  {
    var parts' := [[c] + parts[0]] + parts[1..];
    assert parts'[1..] == parts[1..];
  }

  /** Joining the pieces with the separator gives back the string that was split. */
  lemma {:induction false} JoinSplit(s: string, sep: string)
    requires sep != []
    ensures Join(Split(s, sep), sep) == s
    decreases |s|
  {
    if |s| < |sep| {
      assert Split(s, sep) == [s];
    } else if s[..|sep|] == sep {
      var tail := s[|sep|..];
      var rest := Split(tail, sep);
      assert Split(s, sep) == [""] + rest;
      JoinSplit(tail, sep);
      assert ([""] + rest)[1..] == rest;
      assert Join([""] + rest, sep) == "" + sep + Join(rest, sep);
      assert s == sep + tail;
    } else {
      var rest := Split(s[1..], sep);
      assert Split(s, sep) == [[s[0]] + rest[0]] + rest[1..];
      JoinSplit(s[1..], sep);
      JoinConsHead(s[0], rest, sep);
      assert s == [s[0]] + s[1..];
    }
  }

  /** The first piece of a split is a prefix of the string. */
  lemma {:induction false} SplitHeadIsPrefix(s: string, sep: string)
    requires sep != []
    ensures Split(s, sep)[0] <= s
    decreases |s|
  {
    if |s| >= |sep| && s[..|sep|] != sep {
      var rest := Split(s[1..], sep);
      assert Split(s, sep)[0] == [s[0]] + rest[0];
      SplitHeadIsPrefix(s[1..], sep);
      assert s == [s[0]] + s[1..];
    }
  }

  /** No piece of a split contains the separator. */
  lemma {:induction false} SplitPiecesAreFree(s: string, sep: string)
    requires sep != []
    ensures forall i :: 0 <= i < |Split(s, sep)| ==> !Contains(Split(s, sep)[i], sep)
    decreases |s|
  {
    var parts := Split(s, sep);
    if |s| < |sep| {
      forall j: nat | OccursAt(s, sep, j) ensures false { }
    } else if s[..|sep|] == sep {
      SplitPiecesAreFree(s[|sep|..], sep);
      assert forall i :: 1 <= i < |parts| ==> parts[i] == Split(s[|sep|..], sep)[i - 1];
      forall j: nat | OccursAt("", sep, j) ensures false { }
    } else {
      var rest := Split(s[1..], sep);
      SplitPiecesAreFree(s[1..], sep);
      SplitHeadIsPrefix(s[1..], sep);
      assert forall i :: 1 <= i < |parts| ==> parts[i] == rest[i];
      var head := [s[0]] + rest[0];
      assert head == s[..|head|];
      forall j: nat | OccursAt(head, sep, j) ensures false {
        if j > 0 {
          OccursShift(s[0], rest[0], sep, j - 1);
        }
      }
    }
  }

  /** When there is more than one piece, the string starts with the first piece and then the separator. */
  lemma {:induction false} SplitHeadFollowedBySep(s: string, sep: string)
    requires sep != []
    ensures |Split(s, sep)| > 1 ==> Split(s, sep)[0] + sep <= s
    decreases |s|
  {
    if |s| >= |sep| && s[..|sep|] != sep {
      var rest := Split(s[1..], sep);
      assert Split(s, sep) == [[s[0]] + rest[0]] + rest[1..];
      SplitHeadFollowedBySep(s[1..], sep);
      assert s == [s[0]] + s[1..];
      assert [s[0]] + rest[0] + sep == [s[0]] + (rest[0] + sep);
    }
  }

  /**
   * No occurrence of `sep` starts inside `piece` when `sep` follows it, not
   * even one that runs into that following separator.
   */
  predicate CutFree(piece: string, sep: string)
    requires sep != []
  {
    !Contains(piece + sep[..|sep| - 1], sep)
  }

  /** The first cut of a split is made at the leftmost occurrence. */
  lemma {:induction false} SplitHeadCutFree(s: string, sep: string)
    requires sep != [] && |Split(s, sep)| > 1
    ensures CutFree(Split(s, sep)[0], sep)
    decreases |s|
  {
    var short := sep[..|sep| - 1];
    if s[..|sep|] == sep {
      forall j: nat | OccursAt("" + short, sep, j) ensures false { }
    } else {
      var rest := Split(s[1..], sep);
      assert Split(s, sep) == [[s[0]] + rest[0]] + rest[1..];
      SplitHeadCutFree(s[1..], sep);
      SplitHeadFollowedBySep(s[1..], sep);
      var head := [s[0]] + rest[0];
      assert head + sep <= s;
      assert head + short == [s[0]] + (rest[0] + short);
      assert (head + short)[..|sep|] == s[..|sep|];
      assert !OccursAt(head + short, sep, 0);
      forall j: nat | OccursAt(head + short, sep, j) ensures false {
        if j > 0 {
          OccursShift(s[0], rest[0] + short, sep, j - 1);
        }
      }
    }
  }

  /**
   * Each cut is made at the leftmost occurrence: in a piece followed by the
   * separator, no occurrence of the separator starts inside the piece, even
   * one that would run into the separator after it.
   */
  lemma {:induction false} SplitCutsAtLeftmost(s: string, sep: string)
    requires sep != []
    ensures forall i :: 0 <= i < |Split(s, sep)| - 1 ==> CutFree(Split(s, sep)[i], sep)
    decreases |s|
  {
    var parts := Split(s, sep);
    if |parts| > 1 {
      SplitHeadCutFree(s, sep);
      if s[..|sep|] == sep {
        var rest := Split(s[|sep|..], sep);
        assert parts == [""] + rest;
        SplitCutsAtLeftmost(s[|sep|..], sep);
        assert forall i :: 1 <= i < |parts| ==> parts[i] == rest[i - 1];
      } else {
        var rest := Split(s[1..], sep);
        assert parts == [[s[0]] + rest[0]] + rest[1..];
        SplitCutsAtLeftmost(s[1..], sep);
        assert forall i :: 1 <= i < |parts| ==> parts[i] == rest[i];
      }
    }
  }

  /**
   * When no occurrence starts inside `a` before the separator that follows
   * it, `split` makes its first cut there.
   */
  lemma {:induction false} SplitAtLeftmost(a: string, sep: string, b: string)
    requires sep != [] && CutFree(a, sep)
    ensures Split(a + sep + b, sep) == [a] + Split(b, sep)
    decreases |a|
  {
    var s := a + sep + b;
    var short := sep[..|sep| - 1];
    if a == [] {
      assert s == sep + b && s[..|sep|] == sep && s[|sep|..] == b;
    } else {
      var a' := a[1..];
      assert a + short == [a[0]] + (a' + short);
      forall j: nat | OccursAt(a' + short, sep, j) ensures false {
        OccursShift(a[0], a' + short, sep, j);
      }
      SplitAtLeftmost(a', sep, b);
      assert (a + short)[..|sep|] == s[..|sep|];
      assert !OccursAt(a + short, sep, 0);
      assert s[1..] == a' + sep + b;
      assert [a[0]] + a' == a;
    }
  }

  /**
   * The escaping step by step: the text before the leftmost fence is kept,
   * that fence becomes the lookalike, and the rest is escaped in turn.
   */
  lemma {:induction false} EscapeStep(a: string, b: string)
    requires CutFree(a, Fence)
    ensures Escape(a + Fence + b) == a + Lookalike + Escape(b)
  {
    SplitAtLeftmost(a, Fence, b);
    var rest := Split(b, Fence);
    assert ([a] + rest)[1..] == rest;
  }

  /**
   * The escaping is one left-to-right pass: five backticks give the lookalike
   * followed by two backticks, whose last three characters are a fence again.
   */
  lemma EscapeCanKeepFence()
    ensures Escape("`````") == Lookalike + "``"
    ensures Contains(Escape("`````"), Fence)
  {
    forall j: nat | OccursAt("" + Fence[..2], Fence, j) ensures false { }
    EscapeStep("", "``");
    assert !OccursAt("``", Fence, 0);
    EscapeWithoutFence("``");
    assert "" + Fence + "``" == "`````";
    assert OccursAt(Lookalike + "``", Fence, 4);
  }

  /** A message without a fence is sent unchanged. */
  lemma {:induction false} EscapeWithoutFence(msg: string)
    requires !Contains(msg, Fence)
    ensures Escape(msg) == msg
  {
    SplitWithoutSeparator(msg, Fence);
  }

  /** Splitting a string that does not contain the separator gives the string alone. */
  lemma {:induction false} SplitWithoutSeparator(s: string, sep: string)
    requires sep != [] && !Contains(s, sep)
    ensures Split(s, sep) == [s]
    decreases |s|
  {
    if |s| < |sep| {
    } else {
      assert !OccursAt(s, sep, 0);
      assert [s[0]] + s[1..] == s;
      forall j: nat | OccursAt(s[1..], sep, j) ensures false {
        OccursShift(s[0], s[1..], sep, j);
      }
      SplitWithoutSeparator(s[1..], sep);
      assert [s[0]] + s[1..] == s;
    }
  }

  /** Deleting zero-width spaces distributes over concatenation. */
  lemma {:induction false} StripConcat(a: string, b: string)
    ensures Strip(a + b) == Strip(a) + Strip(b)
    decreases |a|
  {
    if a == [] {
      assert a + b == b;
    } else {
      assert (a + b)[1..] == a[1..] + b;
      StripConcat(a[1..], b);
    }
  }

  /**
   * Round trip of the escaping: deleting the zero-width spaces from the
   * escaped body recovers the message, provided the message had none.
   */
  lemma {:induction false} StripEscape(msg: string)
    ensures ZeroWidth !in msg ==> Strip(Escape(msg)) == msg
    decreases |msg|
  {
    if ZeroWidth in msg {
    } else if |msg| < |Fence| {
      StripFree(msg);
    } else if msg[..|Fence|] == Fence {
      var tail := msg[|Fence|..];
      var rest := Split(tail, Fence);
      assert Split(msg, Fence) == [""] + rest;
      assert ([""] + rest)[1..] == rest;
      StripEscape(tail);
      assert Escape(msg) == Lookalike + Join(rest, Lookalike);
      calc {
        Strip(Escape(msg));
        Strip(Lookalike + Join(rest, Lookalike));
        { StripConcat(Lookalike, Join(rest, Lookalike)); }
        Strip(Lookalike) + Strip(Escape(tail));
        { StripLookalike(); }
        Fence + tail;
        msg;
      }
    } else {
      var rest := Split(msg[1..], Fence);
      JoinConsHead(msg[0], rest, Lookalike);
      StripEscape(msg[1..]);
      calc {
        Strip(Escape(msg));
        Strip([msg[0]] + Join(rest, Lookalike));
        { StripConcat([msg[0]], Join(rest, Lookalike)); }
        [msg[0]] + Strip(Escape(msg[1..]));
        [msg[0]] + msg[1..];
        msg;
      }
    }
  }

  /** Deleting the zero-width spaces from the lookalike gives back the fence. */
  lemma StripLookalike()
    ensures Strip(Lookalike) == Fence
  {
    assert Strip(['`']) == ['`'] by { assert ['`'][1..] == []; }
    assert Strip([ZeroWidth, '`']) == ['`'] by { assert [ZeroWidth, '`'][1..] == ['`']; }
    assert Strip(['`', ZeroWidth, '`']) == ['`', '`'] by { assert ['`', ZeroWidth, '`'][1..] == [ZeroWidth, '`']; }
    assert Strip([ZeroWidth, '`', ZeroWidth, '`']) == ['`', '`'] by {
      assert [ZeroWidth, '`', ZeroWidth, '`'][1..] == ['`', ZeroWidth, '`'];
    }
    assert Lookalike[1..] == [ZeroWidth, '`', ZeroWidth, '`'];
  }

  /** A string without zero-width spaces is left alone by Strip. */
  lemma {:induction false} StripFree(s: string)
    requires ZeroWidth !in s
    ensures Strip(s) == s
    decreases |s|
  {
    if s != [] {
      StripFree(s[1..]);
      assert [s[0]] + s[1..] == s;
    }
  }

  /** The decimal digit for `d`. */
  function DigitChar(d: nat): (c: char)
    requires d < 10
    ensures '0' <= c <= '9' && c as int - '0' as int == d
  {
    ('0' as int + d) as char
  }

  /** The number a string of decimal digits denotes, most significant digit first. */
  function DigitsValue(s: string): nat
    requires forall i :: 0 <= i < |s| ==> '0' <= s[i] <= '9'
    decreases |s|
  {
    if s == [] then 0 else DigitsValue(s[..|s| - 1]) * 10 + (s[|s| - 1] as int - '0' as int)
  }

  /**
   * JavaScript's rendering of a non-negative integer, as in a template
   * literal: the decimal digits of `n` with no leading zero.
   */
  function DecimalString(n: nat): (s: string)
    ensures |s| >= 1
    ensures forall i :: 0 <= i < |s| ==> '0' <= s[i] <= '9'
    ensures DigitsValue(s) == n
    ensures |s| == 1 || s[0] != '0'
    decreases n
  {
    if n < 10 then [DigitChar(n)]
    else
      var high := DecimalString(n / 10);
      var low := DigitChar(n % 10);
      var s := high + [low];
      assert s[..|s| - 1] == high && s[|s| - 1] == low && s[0] == high[0];
      assert DigitsValue(s) == (n / 10) * 10 + n % 10;
      s
  }
}
