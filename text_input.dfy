/** The normalisation barr.py applies to every input line, `line.lower().strip()`,
    over ASCII: lower() maps 'A'..'Z' to 'a'..'z', strip() removes leading and
    trailing whitespace (the ASCII characters Python's str.isspace accepts). */
module TextInput {

  predicate IsSpace(c: char) {
    9 <= c as int <= 13 || 28 <= c as int <= 32
  }

  predicate IsUpper(c: char) {
    'A' <= c <= 'Z'
  }

  function Lower(c: char): char {
    if IsUpper(c) then (c as int + 32) as char else c
  }

  function LowerAll(s: string): string {
    seq(|s|, i requires 0 <= i < |s| => Lower(s[i]))
  }

  /** Drops the leading whitespace. */
  function StripStart(s: string): string
    decreases |s|
  {
    if |s| > 0 && IsSpace(s[0]) then StripStart(s[1..]) else s
  }

  /** Drops the trailing whitespace. */
  function StripEnd(s: string): string
    decreases |s|
  {
    if |s| > 0 && IsSpace(s[|s| - 1]) then StripEnd(s[..|s| - 1]) else s
  }

  /** A command as take_cmd_input compares it: lower-cased, then stripped. */
  function Normalize(line: string): string {
    StripEnd(StripStart(LowerAll(line)))
  }

  /** StripStart leaves a suffix that does not start with whitespace, and
      everything it drops is whitespace. */
  lemma {:induction false} StripStartShape(s: string)
    ensures var r := StripStart(s);
      |r| <= |s| && r == s[|s| - |r|..] &&
      (forall i :: 0 <= i < |s| - |r| ==> IsSpace(s[i])) &&
      (r == [] || !IsSpace(r[0]))
    decreases |s|
  {
    if |s| > 0 && IsSpace(s[0]) {
      StripStartShape(s[1..]);
    }
  }

  /** StripEnd leaves a prefix that does not end with whitespace, and
      everything it drops is whitespace. */
  lemma {:induction false} StripEndShape(s: string)
    ensures var r := StripEnd(s);
      |r| <= |s| && r == s[..|r|] &&
      (forall i :: |r| <= i < |s| ==> IsSpace(s[i])) &&
      (r == [] || !IsSpace(r[|r| - 1]))
    decreases |s|
  {
    if |s| > 0 && IsSpace(s[|s| - 1]) {
      StripEndShape(s[..|s| - 1]);
    }
  }

  /** A normalised command has no upper-case letter and no whitespace at
      either end, and is no longer than the line. */
  lemma NormalizeShape(line: string)
    ensures var r := Normalize(line);
      |r| <= |line| &&
      (forall i :: 0 <= i < |r| ==> !IsUpper(r[i])) &&
      (r == [] || (!IsSpace(r[0]) && !IsSpace(r[|r| - 1])))
  {
    var l := LowerAll(line);
    var t := StripStart(l);
    StripStartShape(l);
    StripEndShape(t);
    var r := StripEnd(t);
    assert forall i :: 0 <= i < |r| ==> r[i] == l[|l| - |t| + i];
  }

  /** Normalising twice is normalising once. */
  lemma {:induction false} NormalizeIdempotent(line: string)
    ensures Normalize(Normalize(line)) == Normalize(line)
  {
    var r := Normalize(line);
    NormalizeShape(line);
    assert LowerAll(r) == r;
    assert StripStart(r) == r;
    assert StripEnd(r) == r;
  }

  /** Whitespace around a command makes no difference, whatever each side holds. */
  lemma {:induction false} NormalizeIgnoresPadding(pre: string, s: string, post: string)
    requires forall i :: 0 <= i < |pre| ==> IsSpace(pre[i])
    requires forall i :: 0 <= i < |post| ==> IsSpace(post[i])
    ensures Normalize(pre + s + post) == Normalize(s)
  {
    var l := LowerAll(s);
    assert LowerAll(pre + s + post) == pre + (l + post);
    StripStartPadding(pre, l + post);
    StripStartAppend(l, post);
    if StripStart(l) != [] {
      StripEndPadding(StripStart(l), post);
    }
  }

  lemma {:induction false} StripStartPadding(pad: string, t: string)
    requires forall i :: 0 <= i < |pad| ==> IsSpace(pad[i])
    ensures StripStart(pad + t) == StripStart(t)
    decreases |pad|
  {
    if |pad| > 0 {
      assert (pad + t)[1..] == pad[1..] + t;
      StripStartPadding(pad[1..], t);
    } else {
      assert pad + t == t;
    }
  }

  lemma {:induction false} StripStartAppend(a: string, b: string)
    requires forall i :: 0 <= i < |b| ==> IsSpace(b[i])
    ensures StripStart(a + b) == if StripStart(a) == [] then [] else StripStart(a) + b
    decreases |a|
  {
    if |a| == 0 {
      assert a + b == b;
      StripStartShape(b);
    } else if IsSpace(a[0]) {
      assert (a + b)[1..] == a[1..] + b;
      StripStartAppend(a[1..], b);
    }
  }

  lemma {:induction false} StripEndPadding(s: string, pad: string)
    requires forall i :: 0 <= i < |pad| ==> IsSpace(pad[i])
    ensures StripEnd(s + pad) == StripEnd(s)
    decreases |pad|
  {
    if |pad| > 0 {
      assert (s + pad)[..|s + pad| - 1] == s + pad[..|pad| - 1];
      StripEndPadding(s, pad[..|pad| - 1]);
    } else {
      assert s + pad == s;
    }
  }
}
