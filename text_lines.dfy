/** The bounded line log of the process supervisor (TextLinesLogger in purity/process.py):
    lines are stripped and appended at the end, the oldest one is dropped once the log
    holds more than its maximum size (a maximum size of 0 means unbounded), and the log
    text is every line with the prefix in front and a newline after it. */
module TextLines {

  /** The characters Python 2's `str.strip()` removes: ASCII whitespace. */
  predicate IsSpace(c: char) {
    c == ' ' || c == '\t' || c == '\n' || c == '\r' || c as int == 11 || c as int == 12
  }

  /** How many whitespace characters `s` starts with. */
  function LeadingSpaces(s: string): (n: nat)
    ensures n <= |s| && (n < |s| ==> !IsSpace(s[n]))
    decreases |s|
  {
    if s != [] && IsSpace(s[0]) then 1 + LeadingSpaces(s[1..]) else 0
  }

  /** How many whitespace characters `s` ends with. */
  function TrailingSpaces(s: string): (n: nat)
    ensures n <= |s| && (n < |s| ==> !IsSpace(s[|s| - 1 - n]))
    decreases |s|
  {
    if s != [] && IsSpace(s[|s| - 1]) then 1 + TrailingSpaces(s[..|s| - 1]) else 0
  }

  lemma {:induction false} LeadingAreSpaces(s: string)
    ensures forall k | 0 <= k < LeadingSpaces(s) :: IsSpace(s[k])
    decreases |s|
  {
    if s != [] && IsSpace(s[0]) {
      LeadingAreSpaces(s[1..]);
      assert forall k | 1 <= k < LeadingSpaces(s) :: s[k] == s[1..][k - 1];
    }
  }

  lemma {:induction false} TrailingAreSpaces(s: string)
    ensures forall k | |s| - TrailingSpaces(s) <= k < |s| :: IsSpace(s[k])
    decreases |s|
  {
    if s != [] && IsSpace(s[|s| - 1]) {
      TrailingAreSpaces(s[..|s| - 1]);
      assert forall k | |s| - TrailingSpaces(s) <= k < |s| - 1 :: s[k] == s[..|s| - 1][k];
    }
  }

  /** Python's `s.strip()`: the leading whitespace is cut off, then the trailing
      whitespace of what is left. What remains neither starts nor ends with whitespace. */
  function Strip(s: string): (r: string)
    ensures r == [] || (!IsSpace(r[0]) && !IsSpace(r[|r| - 1]))
    ensures |r| <= |s|
  {
    var rest := s[LeadingSpaces(s)..];
    rest[..|rest| - TrailingSpaces(rest)]
  }

  /** `Strip` keeps a contiguous piece of `s` and cuts off nothing but whitespace around
      it. */
  lemma StripIsPiece(s: string)
    ensures var i := LeadingSpaces(s); var r := Strip(s);
      i + |r| <= |s| && r == s[i..i + |r|] &&
      (forall k | 0 <= k < i :: IsSpace(s[k])) &&
      (forall k | i + |r| <= k < |s| :: IsSpace(s[k]))
  {
    var i := LeadingSpaces(s);
    var rest := s[i..];
    var r := Strip(s);
    assert rest[..|r|] == s[i..i + |r|];
    LeadingAreSpaces(s);
    TrailingAreSpaces(rest);
    forall k | i + |r| <= k < |s|
      ensures IsSpace(s[k])
    {
      assert s[k] == rest[k - i];
    }
  }

  /** A string with no whitespace at either end is its own strip. */
  lemma StrippedIsFixed(s: string)
    requires s == [] || (!IsSpace(s[0]) && !IsSpace(s[|s| - 1]))
    ensures Strip(s) == s
  {
  }

  /** Stripping twice is stripping once (the supervisor strips output before logging it,
      and the log strips it again). */
  lemma StripIdempotent(s: string)
    ensures Strip(Strip(s)) == Strip(s)
  {
    StrippedIsFixed(Strip(s));
  }

  // ---------------------------------------------------------------- appending

  /** The lines after `append(line)` with the given maximum size. */
  function Appended(lines: seq<string>, maxsize: int, line: string): (r: seq<string>)
    ensures maxsize > 0 && |lines| <= maxsize ==> |r| <= maxsize
    ensures maxsize >= 0 ==> r != [] && r[|r| - 1] == Strip(line)
    ensures maxsize == 0 || |lines| < maxsize ==> r == lines + [Strip(line)]
    ensures maxsize > 0 && |lines| == maxsize ==> r == lines[1..] + [Strip(line)]
  {
    var added := lines + [Strip(line)];
    if maxsize != 0 && |added| > maxsize then added[1..] else added
  }

  /** The lines after appending each of `more`, in order. */
  function AppendAll(lines: seq<string>, maxsize: int, more: seq<string>): (r: seq<string>)
    ensures maxsize > 0 && |lines| <= maxsize ==> |r| <= maxsize
    ensures maxsize >= 0 && more != [] ==> r != [] && r[|r| - 1] == Strip(more[|more| - 1])
    decreases |more|
  {
    if more == [] then lines else AppendAll(Appended(lines, maxsize, more[0]), maxsize, more[1..])
  }

  /** Each line stripped, in order. */
  function StripAll(more: seq<string>): (r: seq<string>)
    ensures |r| == |more|
    decreases |more|
  {
    if more == [] then [] else [Strip(more[0])] + StripAll(more[1..])
  }

  /** Line `k` of the stripped lines is line `k` of the input, stripped. */
  lemma {:induction false} StripAllEach(more: seq<string>, k: int)
    requires 0 <= k < |more|
    ensures StripAll(more)[k] == Strip(more[k])
    decreases |more|
  {
    if k > 0 {
      StripAllEach(more[1..], k - 1);
    }
  }

  /** The last `n` elements of `s` (all of them when there are fewer). */
  function LastN<T>(s: seq<T>, n: nat): (r: seq<T>)
    ensures |r| == (if |s| <= n then |s| else n) && r == s[|s| - |r|..]
  {
    if |s| <= n then s else s[|s| - n..]
  }

  lemma LastNOfSuffix<T>(t: seq<T>, j: nat, n: nat)
    requires j <= |t| && n <= |t| - j
    ensures LastN(t[j..], n) == LastN(t, n)
  {
    assert t[j..][|t| - j - n..] == t[|t| - n..];
  }

  lemma LastNOfLastN<T>(a: seq<T>, b: seq<T>, n: nat)
    ensures LastN(LastN(a, n) + b, n) == LastN(a + b, n)
  {
    if |a| > n {
      assert LastN(a, n) + b == (a + b)[|a| - n..];
      LastNOfSuffix(a + b, |a| - n, n);
    }
  }

  lemma AppendedIsLastN(lines: seq<string>, maxsize: int, line: string)
    requires 0 < maxsize && |lines| <= maxsize
    ensures Appended(lines, maxsize, line) == LastN(lines + [Strip(line)], maxsize)
  {
  }

  /** With a positive maximum size, the log holds exactly the last `maxsize` stripped lines
      of everything appended: the oldest lines are the ones dropped. */
  lemma {:induction false} BoundedLogKeepsNewest(lines: seq<string>, maxsize: int, more: seq<string>)
    requires 0 < maxsize && |lines| <= maxsize
    ensures AppendAll(lines, maxsize, more) == LastN(lines + StripAll(more), maxsize)
    decreases |more|
  {
    if more == [] {
      assert lines + StripAll(more) == lines;
    } else {
      var x := Strip(more[0]);
      var rest := StripAll(more[1..]);
      assert lines + [x] + rest == lines + ([x] + rest);
      assert StripAll(more) == [x] + rest;
      var next := Appended(lines, maxsize, more[0]);
      AppendedIsLastN(lines, maxsize, more[0]);
      BoundedLogKeepsNewest(next, maxsize, more[1..]);
      LastNOfLastN(lines + [x], rest, maxsize);
    }
  }

  /** With maximum size 0 the log is unbounded: nothing is ever dropped. */
  lemma {:induction false} UnboundedLogKeepsAll(lines: seq<string>, more: seq<string>)
    ensures AppendAll(lines, 0, more) == lines + StripAll(more)
    decreases |more|
  {
    if more == [] {
      assert lines + StripAll(more) == lines;
    } else {
      var x := Strip(more[0]);
      UnboundedLogKeepsAll(lines + [x], more[1..]);
      assert StripAll(more) == [x] + StripAll(more[1..]);
      assert lines + [x] + StripAll(more[1..]) == lines + ([x] + StripAll(more[1..]));
    }
  }

  // ---------------------------------------------------------------- the log text

  /** The in-order concatenation of `prefix + line + "\n"` over the lines. */
  function LogText(prefix: string, lines: seq<string>): (r: string)
    ensures r == [] <==> lines == []
    ensures lines != [] ==> r[|r| - 1] == '\n'
    decreases |lines|
  {
    if lines == [] then "" else LogText(prefix, lines[..|lines| - 1]) + prefix + lines[|lines| - 1] + "\n"
  }

  lemma {:induction false} TextAppend(prefix: string, a: seq<string>, b: seq<string>)
    ensures LogText(prefix, a + b) == LogText(prefix, a) + LogText(prefix, b)
    decreases |b|
  {
    if b == [] {
      assert a + b == a;
    } else {
      var b' := b[..|b| - 1];
      assert (a + b)[..|a + b| - 1] == a + b';
      TextAppend(prefix, a, b');
    }
  }

  /** The pieces of `t` that end with a newline, in order (the rest after the last newline
      is dropped). */
  function SplitLines(t: string): seq<string>
    decreases |t|
  {
    if '\n' !in t then []
    else
      var k := FirstNewline(t);
      [t[..k]] + SplitLines(t[k + 1..])
  }

  function FirstNewline(t: string): (k: nat)
    requires '\n' in t
    ensures k < |t| && t[k] == '\n' && '\n' !in t[..k]
    decreases |t|
  {
    if t[0] == '\n' then 0 else 1 + FirstNewline(t[1..])
  }

  function Prefixed(prefix: string, lines: seq<string>): (r: seq<string>)
    ensures |r| == |lines| && forall k | 0 <= k < |lines| :: r[k] == prefix + lines[k]
    decreases |lines|
  {
    if lines == [] then [] else [prefix + lines[0]] + Prefixed(prefix, lines[1..])
  }

  /** When neither the prefix nor any line holds a newline, the log text splits back into
      the prefixed lines: the text loses nothing and adds nothing. */
  lemma {:induction false} TextSplitsBack(prefix: string, lines: seq<string>)
    requires '\n' !in prefix && forall k | 0 <= k < |lines| :: '\n' !in lines[k]
    ensures SplitLines(LogText(prefix, lines)) == Prefixed(prefix, lines)
    decreases |lines|
  {
    if lines != [] {
      var head := prefix + lines[0];
      var rest := LogText(prefix, lines[1..]);
      calc {
        LogText(prefix, lines);
        { assert lines == [lines[0]] + lines[1..]; TextAppend(prefix, [lines[0]], lines[1..]); }
        LogText(prefix, [lines[0]]) + rest;
        { assert [lines[0]][..0] == []; }
        head + "\n" + rest;
      }
      var t := head + "\n" + rest;
      assert '\n' !in head;
      assert t[|head|] == '\n';
      assert t[..|head|] == head;
      assert FirstNewline(t) == |head| by {
        FirstNewlineOf(head, "\n" + rest);
      }
      assert t[|head| + 1..] == rest;
      TextSplitsBack(prefix, lines[1..]);
    }
  }

  lemma {:induction false} FirstNewlineOf(a: string, b: string)
    requires '\n' !in a && b != [] && b[0] == '\n'
    ensures '\n' in a + b && FirstNewline(a + b) == |a|
    decreases |a|
  {
    assert (a + b)[|a|] == '\n';
    if a != [] {
      assert (a + b)[1..] == a[1..] + b;
      FirstNewlineOf(a[1..], b);
    }
  }

  /** Logs lines of text. */
  class TextLinesLogger {
    var lines: seq<string>
    const maxsize: int
    const prefix: string

    constructor (maxsize: int := 0, prefix: string := "")
      ensures lines == [] && this.maxsize == maxsize && this.prefix == prefix
    {
      lines := [];
      this.maxsize := maxsize;
      this.prefix := prefix;
    }

    method Append(line: string)
      modifies this
      ensures lines == Appended(old(lines), maxsize, line)
    {
      lines := lines + [Strip(line)];
      if maxsize != 0 {
        if |lines| > maxsize {
          lines := lines[1..];
        }
      }
    }

    /** The whole text logged. */
    method GetText() returns (ret: string)
      ensures ret == LogText(prefix, lines)
    {
      ret := "";
      var i := 0;
      while i < |lines|
        invariant 0 <= i <= |lines|
        invariant ret == LogText(prefix, lines[..i])
      {
        assert lines[..i + 1][..i] == lines[..i];
        ret := ret + prefix + lines[i] + "\n";
        i := i + 1;
      }
      assert lines[..|lines|] == lines;
    }

    /** Empties the lines of text. */
    method Clear()
      modifies this
      ensures lines == []
    {
      lines := [];
    }
  }
}
