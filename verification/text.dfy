/**
 * Text primitives the generator relies on: decimal rendering of ids (Rust's
 * `{}` formatting of a `usize`), newline framing of rows, and the line reader
 * the merge uses (`BufRead::lines`), which splits at `\n` and drops one `\r`
 * that precedes it.
 */
module Text {

  /** The character of a decimal digit. */
  function Digit(d: nat): (c: char)
    requires d < 10
    ensures '0' <= c <= '9'
    ensures c as int - '0' as int == d
  {
    ('0' as int + d) as char
  }

  /** The numeric value of a digit character. */
  function DigitValue(c: char): nat
    requires '0' <= c <= '9'
  {
    c as int - '0' as int
  }

  predicate IsDigits(s: string) {
    forall i :: 0 <= i < |s| ==> '0' <= s[i] <= '9'
  }

  /** Decimal rendering of `n`, most significant digit first, no leading zeros. */
  function Dec(n: nat): (s: string)
    ensures |s| > 0
    ensures IsDigits(s)
    ensures |s| > 1 ==> s[0] != '0'
    decreases n
  {
    if n < 10 then [Digit(n)] else Dec(n / 10) + [Digit(n % 10)]
  }

  /** Reads a string of digits back as a number. */
  function ParseDec(s: string): nat
    requires IsDigits(s)
    decreases |s|
  {
    if |s| == 0 then 0 else 10 * ParseDec(s[..|s| - 1]) + DigitValue(s[|s| - 1])
  }

  /** Rendering then parsing gives the number back, so distinct ids print differently. */
  lemma {:induction false} ParseDecOfDec(n: nat)
    ensures ParseDec(Dec(n)) == n
    decreases n
  {
    var s := Dec(n);
    if n < 10 {
      assert s[..0] == [];
    } else {
      ParseDecOfDec(n / 10);
      assert s[..|s| - 1] == Dec(n / 10);
    }
  }

  lemma DecInjective(a: nat, b: nat)
    ensures Dec(a) == Dec(b) ==> a == b
  {
    ParseDecOfDec(a);
    ParseDecOfDec(b);
  }

  /** A line without a line break. */
  predicate NoBreak(l: string) {
    forall i :: 0 <= i < |l| ==> l[i] != '\n'
  }

  /** A line the reader hands back unchanged: no `\n`, and no trailing `\r`. */
  predicate Clean(l: string) {
    NoBreak(l) && (|l| > 0 ==> l[|l| - 1] != '\r')
  }

  /** Text with neither line-break character anywhere. */
  predicate Plain(s: string) {
    forall i :: 0 <= i < |s| ==> s[i] != '\n' && s[i] != '\r'
  }

  /** Text with no line-break character is a line the reader hands back unchanged. */
  lemma PlainIsClean(s: string)
    requires Plain(s)
    ensures Clean(s)
  {
  }

  lemma PlainConcat(a: string, b: string)
    requires Plain(a) && Plain(b)
    ensures Plain(a + b)
  {
    forall i | 0 <= i < |a + b|
      ensures (a + b)[i] != '\n' && (a + b)[i] != '\r'
    {
      if i < |a| { assert (a + b)[i] == a[i]; } else { assert (a + b)[i] == b[i - |a|]; }
    }
  }

  lemma DecIsPlain(n: nat)
    ensures Plain(Dec(n))
  {
  }

  /** Each line followed by exactly one `\n`, in order. */
  function Frame(ls: seq<string>): (r: string)
    ensures |ls| > 0 ==> |r| > 0 && r[|r| - 1] == '\n'
    decreases |ls|
  {
    if |ls| == 0 then "" else ls[0] + "\n" + Frame(ls[1..])
  }

  lemma {:induction false} FrameAppend(a: seq<string>, b: seq<string>)
    ensures Frame(a + b) == Frame(a) + Frame(b)
    decreases |a|
  {
    if |a| == 0 {
      assert a + b == b;
    } else {
      assert (a + b)[1..] == a[1..] + b;
      FrameAppend(a[1..], b);
    }
  }

  /** Position of the first `\n` in `s`, or `|s|` when there is none. */
  function BreakAt(s: string): (k: nat)
    ensures k <= |s|
    ensures forall i :: 0 <= i < k ==> s[i] != '\n'
    ensures k < |s| ==> s[k] == '\n'
    decreases |s|
  {
    if |s| == 0 || s[0] == '\n' then 0 else 1 + BreakAt(s[1..])
  }

  /** Drops one trailing carriage return, as the reader does before a `\n`. */
  function StripCr(l: string): string {
    if |l| > 0 && l[|l| - 1] == '\r' then l[..|l| - 1] else l
  }

  /**
   * The lines of `s` as the reader yields them: split after each `\n`, which
   * is removed together with a `\r` right before it; a last line without `\n`
   * is yielded as it stands; an empty tail yields nothing.
   */
  function Lines(s: string): (ls: seq<string>)
    ensures forall i :: 0 <= i < |ls| ==> NoBreak(ls[i])
    ensures |ls| == 0 <==> |s| == 0
    decreases |s|
  {
    if |s| == 0 then []
    else
      var k := BreakAt(s);
      if k == |s| then [s]
      else [StripCr(s[..k])] + Lines(s[k + 1..])
  }

  /** The merge's copy of one chunk file: every line read, written back with one `\n`. */
  function Reframe(s: string): (r: string)
    ensures r == "" <==> s == ""
  {
    Frame(Lines(s))
  }

  lemma BreakAtFramed(a: string, b: string)
    requires NoBreak(a)
    ensures BreakAt(a + "\n" + b) == |a|
  {
    var s := a + "\n" + b;
    assert s[|a|] == '\n';
    assert forall i :: 0 <= i < |a| ==> s[i] == a[i];
  }

  /** Reading framed clean lines gives the lines back. */
  lemma {:induction false} LinesOfFrame(ls: seq<string>)
    requires forall i :: 0 <= i < |ls| ==> Clean(ls[i])
    ensures Lines(Frame(ls)) == ls
    decreases |ls|
  {
    if |ls| > 0 {
      var s := Frame(ls);
      var a := ls[0];
      assert s == a + "\n" + Frame(ls[1..]);
      BreakAtFramed(a, Frame(ls[1..]));
      assert s[..|a|] == a;
      assert s[|a| + 1..] == Frame(ls[1..]);
      LinesOfFrame(ls[1..]);
      assert StripCr(a) == a;
    }
  }

  /** Copying a file of framed clean lines reproduces it byte for byte. */
  lemma ReframeOfFrame(ls: seq<string>)
    requires forall i :: 0 <= i < |ls| ==> Clean(ls[i])
    ensures Reframe(Frame(ls)) == Frame(ls)
  {
    LinesOfFrame(ls);
  }

  /** A last line without a terminator gains exactly one `\n`. */
  lemma ReframeTerminates(a: string)
    requires Clean(a) && |a| > 0
    ensures Reframe(a) == a + "\n"
  {
    assert BreakAt(a) == |a|;
    assert Lines(a) == [a];
    assert Frame([a][1..]) == "";
  }

  /** A CRLF-terminated line is rewritten with a bare `\n`. */
  lemma ReframeDropsCr(a: string)
    requires Clean(a)
    ensures Reframe(a + "\r\n") == a + "\n"
  {
    var s := a + "\r\n";
    var b := a + "\r";
    assert s == b + "\n" + "";
    BreakAtFramed(b, "");
    assert s[..|b|] == b;
    assert StripCr(b) == a;
    assert s[|b| + 1..] == "";
    assert Lines(s) == [a];
    assert Frame([a][1..]) == "";
  }
}
