/**
 The plate list a start request carries: the textarea text is cut at each newline,
 every line is stripped and upper-cased, and blank lines are dropped (app.py:471).
 */
module Plates {
  import opened Text
  import Lines

  /** What every parsed plate looks like: non-empty, no surrounding whitespace, upper case. */
  ghost predicate IsPlate(p: string)
  {
    p != [] && Trimmed(p) && IsUpperCase(p)
  }

  /** The plate one line contributes: none for a blank line, else the stripped upper-cased line. */
  function LinePlate(line: string): (plates: seq<string>)
    ensures |plates| <= 1
    ensures plates == [] <==> AllSpace(line)
    ensures forall k :: 0 <= k < |plates| ==> IsPlate(plates[k])
  {
    var t := Strip(line);
    StripEmpty(line);
    UpperProperties(t);
    if t == [] then [] else [Upper(t)]
  }

  function ParseLines(lines: seq<string>): (plates: seq<string>)
    ensures |plates| <= |lines|
    ensures forall k :: 0 <= k < |plates| ==> IsPlate(plates[k])
  {
    if lines == [] then [] else LinePlate(lines[0]) + ParseLines(lines[1..])
  }

  /** The text box split into lines; each non-blank line gives one plate, stripped and upper-cased. */
  function ParsePlates(text: string): (plates: seq<string>)
    ensures forall k :: 0 <= k < |plates| ==> IsPlate(plates[k])
    ensures plates == [] <==> AllSpace(text)
  {
    var lines := Lines.Split(text, '\n');
    Lines.SplitSpec(text, '\n');
    ParseLinesEmpty(lines);
    JoinAllSpace(lines);
    ParseLines(lines)
  }

  lemma {:induction false} ParseLinesEmpty(lines: seq<string>)
    ensures ParseLines(lines) == [] <==> forall k :: 0 <= k < |lines| ==> AllSpace(lines[k])
  {
    if lines != [] {
      ParseLinesEmpty(lines[1..]);
      assert forall k :: 1 <= k < |lines| ==> lines[k] == lines[1..][k - 1];
    }
  }

  /** A newline-joined text is blank exactly when every line is (the newline itself is whitespace). */
  lemma {:induction false} JoinAllSpace(lines: seq<string>)
    requires |lines| >= 1
    ensures AllSpace(Lines.Join(lines, '\n')) <==> forall k :: 0 <= k < |lines| ==> AllSpace(lines[k])
    decreases |lines|
  {
    if |lines| > 1 {
      JoinAllSpace(lines[1..]);
      var rest := Lines.Join(lines[1..], '\n');
      var j := lines[0] + ['\n'] + rest;
      assert forall i :: 0 <= i < |lines[0]| ==> j[i] == lines[0][i];
      assert forall i :: 0 <= i < |rest| ==> j[|lines[0]| + 1 + i] == rest[i];
      assert forall k :: 1 <= k < |lines| ==> lines[k] == lines[1..][k - 1];
      if AllSpace(lines[0]) && AllSpace(rest) {
        forall i | 0 <= i < |j| ensures IsSpace(j[i]) {
          if i > |lines[0]| { assert j[i] == rest[i - |lines[0]| - 1]; }
        }
      }
    }
  }

  lemma {:induction false} ParseLinesAppend(a: seq<string>, b: seq<string>)
    ensures ParseLines(a + b) == ParseLines(a) + ParseLines(b)
  {
    if a != [] {
      assert (a + b)[1..] == a[1..] + b;
      ParseLinesAppend(a[1..], b);
    } else {
      assert a + b == b;
    }
  }

  /** Lines are parsed independently and in order: the plates of two newline-joined texts are the two plate lists concatenated. */
  lemma ParsePlatesAppend(a: string, b: string)
    ensures ParsePlates(a + "\n" + b) == ParsePlates(a) + ParsePlates(b)
  {
    Lines.SplitAppend(a, b, '\n');
    ParseLinesAppend(Lines.Split(a, '\n'), Lines.Split(b, '\n'));
  }

  /** A single line yields no plate when blank and otherwise exactly its stripped, upper-cased text. */
  lemma ParsePlatesLine(line: string)
    requires '\n' !in line
    ensures AllSpace(line) ==> ParsePlates(line) == []
    ensures !AllSpace(line) ==> ParsePlates(line) == [Upper(Strip(line))]
  {
    Lines.SplitNoSeparator(line, '\n');
    StripEmpty(line);
    assert ParseLines([line]) == LinePlate(line) + ParseLines([]);
  }
}
