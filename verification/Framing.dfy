/** Newline framing of a byte string: whole lines, then an unterminated tail. */
module Framing {
  import opened Basics

  /** One newline, at the end. */
  ghost predicate IsLine(d: bytes) {
    && d != []
    && d[|d| - 1] == NEWLINE
    && forall i :: 0 <= i < |d| - 1 ==> d[i] != NEWLINE
  }

  function Body(line: bytes): bytes
    requires line != []
  {
    line[..|line| - 1]
  }

  ghost predicate AllLines(lines: seq<bytes>) {
    forall i :: 0 <= i < |lines| ==> IsLine(lines[i])
  }

  function Flatten(lines: seq<bytes>): bytes {
    if lines == [] then [] else lines[0] + Flatten(lines[1..])
  }

  /** The index of the first newline at or after `i`, or the length when there is none. */
  function FindNewline(b: bytes, i: nat): (n: nat)
    requires i <= |b|
    ensures i <= n <= |b|
    ensures n < |b| ==> b[n] == NEWLINE
    ensures forall k :: i <= k < n ==> b[k] != NEWLINE
    decreases |b| - i
  {
    if i == |b| || b[i] == NEWLINE then i else FindNewline(b, i + 1)
  }

  /** The newline-terminated lines of `b`, and what is left after the last newline. */
  function Split(b: bytes): (r: (seq<bytes>, bytes))
    decreases |b|
  {
    var n := FindNewline(b, 0);
    if n == |b| then ([], b)
    else var (lines, tail) := Split(b[n + 1..]); ([b[..n + 1]] + lines, tail)
  }

  lemma {:induction false} FlattenCons(first: bytes, more: seq<bytes>)
    ensures Flatten([first] + more) == first + Flatten(more)
  {
    assert ([first] + more)[1..] == more;
  }

  lemma {:induction false} FlattenAppend(lines: seq<bytes>, more: seq<bytes>)
    ensures Flatten(lines + more) == Flatten(lines) + Flatten(more)
  {
    if lines == [] {
      assert lines + more == more;
    } else {
      FlattenAppend(lines[1..], more);
      assert (lines + more)[1..] == lines[1..] + more;
      Assoc(lines[0], Flatten(lines[1..]), Flatten(more));
    }
  }

  lemma {:induction false} FlattenSnoc(lines: seq<bytes>, line: bytes)
    ensures Flatten(lines + [line]) == Flatten(lines) + line
  {
    FlattenAppend(lines, [line]);
    FlattenCons(line, []);
    assert [line] + [] == [line];
  }

  lemma {:induction false} SplitNewlineFree(b: bytes)
    requires NEWLINE !in b
    ensures Split(b) == ([], b)
  {
    assert FindNewline(b, 0) == |b|;
  }

  lemma {:induction false} SplitFirst(line: bytes, rest: bytes)
    requires IsLine(line)
    ensures Split(line + rest) == ([line] + Split(rest).0, Split(rest).1)
  {
    var b := line + rest;
    assert b[|line| - 1] == NEWLINE;
    assert FindNewline(b, 0) == |line| - 1;
    assert b[..|line|] == line && b[|line|..] == rest;
  }

  lemma {:induction false} SplitStep(first: bytes, middle: bytes, rest: bytes, more: seq<bytes>, last: seq<bytes>)
    requires IsLine(first) && Split(middle + rest).0 == more + last
    ensures Split((first + middle) + rest) == (([first] + more) + last, Split(middle + rest).1)
  {
    hide Split;
    SplitFirst(first, middle + rest);
    assert (first + middle) + rest == first + (middle + rest);
    assert ([first] + more) + last == [first] + (more + last);
  }

  /** The decomposition into lines and a newline-free tail is unique. */
  lemma {:induction false} SplitOf(lines: seq<bytes>, rest: bytes)
    requires AllLines(lines)
    ensures Split(Flatten(lines) + rest) == (lines + Split(rest).0, Split(rest).1)
  {
    hide Split;
    if lines == [] {
      assert Flatten(lines) + rest == rest;
      assert lines + Split(rest).0 == Split(rest).0;
    } else {
      var first, more := lines[0], lines[1..];
      SplitOf(more, rest);
      SplitStep(first, Flatten(more), rest, more, Split(rest).0);
      assert lines == [first] + more;
    }
  }

  lemma {:induction false} SplitJoins(b: bytes)
    ensures AllLines(Split(b).0) && NEWLINE !in Split(b).1
    ensures Flatten(Split(b).0) + Split(b).1 == b
    decreases |b|
  {
    var n := FindNewline(b, 0);
    if n == |b| {
      assert Flatten([]) + b == b;
    } else {
      var line, rest := b[..n + 1], b[n + 1..];
      assert IsLine(line) && b == line + rest;
      hide IsLine, FindNewline, Flatten;
      SplitJoins(rest);
      JoinCons(line, Split(rest).0, Split(rest).1);
    }
  }

  lemma {:induction false} JoinCons(line: bytes, lines: seq<bytes>, tail: bytes)
    requires IsLine(line) && AllLines(lines)
    ensures AllLines([line] + lines) && Flatten([line] + lines) + tail == line + (Flatten(lines) + tail)
  {
    hide Flatten, IsLine;
    FlattenCons(line, lines);
  }

  // ---- cutting a framed byte string ---------------------------------------

  /** How many whole lines fit into the first `k` bytes. */
  function LinesWithin(lines: seq<bytes>, k: nat): (n: nat)
    ensures n <= |lines|
  {
    if lines == [] || |lines[0]| > k then 0 else 1 + LinesWithin(lines[1..], k - |lines[0]|)
  }

  lemma {:induction false} LinesWithinFits(lines: seq<bytes>, k: nat)
    ensures |Flatten(lines[..LinesWithin(lines, k)])| <= k
  {
    if lines != [] && |lines[0]| <= k {
      var first, more := lines[0], lines[1..];
      var n := LinesWithin(more, k - |first|);
      LinesWithinFits(more, k - |first|);
      FlattenCons(first, more[..n]);
      assert lines[..n + 1] == [first] + more[..n];
    }
  }

  /** Every run of lines that ends at or before the cut is kept. */
  lemma {:induction false} LinesWithinAll(lines: seq<bytes>, k: nat, i: nat)
    requires i <= |lines| && |Flatten(lines[..i])| <= k
    ensures i <= LinesWithin(lines, k)
  {
    if i > 0 {
      var first, more := lines[0], lines[1..];
      assert lines[..i] == [first] + more[..i - 1];
      FlattenCons(first, more[..i - 1]);
      LinesWithinAll(more, k - |first|, i - 1);
    }
  }

  lemma {:induction false} CutInFirst(first: bytes, rest: bytes, k: nat)
    requires IsLine(first) && k < |first|
    ensures Split((first + rest)[..k]) == ([], first[..k])
  {
    assert (first + rest)[..k] == first[..k];
    SplitNewlineFree(first[..k]);
  }

  /** A cut keeps the whole lines before it, and what it keeps of the next line is a newline-free tail. */
  lemma {:induction false} CutLines(lines: seq<bytes>, tail: bytes, k: nat)
    requires AllLines(lines) && NEWLINE !in tail && k <= |Flatten(lines) + tail|
    ensures var n := LinesWithin(lines, k);
            && |Flatten(lines[..n])| <= k
            && Split((Flatten(lines) + tail)[..k]) == (lines[..n], (Flatten(lines) + tail)[|Flatten(lines[..n])|..k])
  {
    var b := Flatten(lines) + tail;
    LinesWithinFits(lines, k);
    if lines == [] {
      assert b == tail;
      SplitNewlineFree(b[..k]);
    } else {
      var first, more := lines[0], lines[1..];
      var rest := Flatten(more) + tail;
      assert b == first + rest;
      if |first| > k {
        CutInFirst(first, rest, k);
        assert b[..k] == first[..k] == b[0..k];
        assert lines[..0] == [];
      } else {
        hide Split, Flatten, LinesWithin;
        CutLines(more, tail, k - |first|);
        assert lines == [first] + more;
        CutAfterFirst(first, more, rest, k);
      }
    }
  }

  lemma {:induction false} CutAfterFirst(first: bytes, more: seq<bytes>, rest: bytes, k: nat)
    requires IsLine(first) && |first| <= k <= |first + rest|
    requires var m := LinesWithin(more, k - |first|);
             |Flatten(more[..m])| <= k - |first|
             && Split(rest[..k - |first|]) == (more[..m], rest[|Flatten(more[..m])|..k - |first|])
    ensures var n := LinesWithin([first] + more, k);
            && |Flatten(([first] + more)[..n])| <= k
            && Split((first + rest)[..k]) ==
               (([first] + more)[..n], (first + rest)[|Flatten(([first] + more)[..n])|..k])
  {
    hide Split, Flatten, FindNewline;
    var m := LinesWithin(more, k - |first|);
    assert ([first] + more)[1..] == more;
    assert ([first] + more)[..m + 1] == [first] + more[..m];
    FlattenCons(first, more[..m]);
    SplitFirst(first, rest[..k - |first|]);
    assert (first + rest)[..k] == first + rest[..k - |first|];
    assert (first + rest)[|first| + |Flatten(more[..m])|..k] == rest[|Flatten(more[..m])|..k - |first|];
  }
}
