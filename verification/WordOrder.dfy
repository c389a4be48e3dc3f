/** Putting the words of a page into reading order: words presorted by bottom and left edge
    are grouped into lines, and each line is sorted from left to right. */
module WordOrder {
  import opened RectAlgorithms

  datatype Word = Word(box: Rect, text: string)

  const LINE_TOLERANCE: real := 3.0

  function Abs(x: real): real { if x < 0.0 then -x else x }

  /** A word is on a line when its top or its bottom is close to that of the line so far. */
  predicate OnLine(w: Word, line: Rect) {
    Abs(w.box.y0 - line.y0) <= LINE_TOLERANCE || Abs(w.box.y1 - line.y1) <= LINE_TOLERANCE
  }

  function LineBox(line: seq<Word>): Rect
    requires line != []
  {
    var n := |line| - 1;
    if n == 0 then line[0].box else Hull(LineBox(line[..n]), line[n].box)
  }

  /** Word k is on the line made of the words before it. */
  predicate Follows(line: seq<Word>, k: nat)
    requires 1 <= k < |line|
  {
    OnLine(line[k], LineBox(line[..k]))
  }

  predicate IsLine(line: seq<Word>) {
    line != [] && forall k :: 1 <= k < |line| ==> Follows(line, k)
  }

  /** The first word of line i is not on the line before. */
  predicate Breaks(lines: seq<seq<Word>>, i: nat)
    requires 1 <= i < |lines| && lines[i - 1] != [] && lines[i] != []
  {
    !OnLine(lines[i][0], LineBox(lines[i - 1]))
  }

  /** Lines, each of which ends because the next word is not on it. */
  ghost predicate Lines(lines: seq<seq<Word>>) {
    && (forall i :: 0 <= i < |lines| ==> IsLine(lines[i]))
    && (forall i :: 1 <= i < |lines| ==> Breaks(lines, i))
  }

  function OnlyAtX(w: Word, x: real): seq<Word> {
    if w.box.x0 == x then [w] else []
  }

  function AtX(line: seq<Word>, x: real): seq<Word> {
    if line == [] then []
    else
      var n := |line| - 1;
      AtX(line[..n], x) + OnlyAtX(line[n], x)
  }

  predicate LeftToRight(line: seq<Word>) {
    forall i, j :: 0 <= i < j < |line| ==> line[i].box.x0 <= line[j].box.x0
  }

  /** A stable sort: ordered, with the words of each left edge in the order they had. */
  ghost predicate StablySorted(line: seq<Word>, sorted: seq<Word>) {
    LeftToRight(sorted) && |sorted| == |line| && forall x :: AtX(sorted, x) == AtX(line, x)
  }

  // ---------------------------------------------------------------- in coordinates

  /** The line so far reaches from its highest top to its lowest bottom. */
  lemma {:induction false} LineExtent(line: seq<Word>, top: real, bottom: real)
    requires line != []
    ensures top <= LineBox(line).y0 <==> forall w :: w in line ==> top <= w.box.y0
    ensures bottom >= LineBox(line).y1 <==> forall w :: w in line ==> bottom >= w.box.y1
  {
    var n := |line| - 1;
    if n > 0 {
      LineExtent(line[..n], top, bottom);
      assert line == line[..n] + [line[n]];
      assert forall w :: w in line <==> w in line[..n] || w == line[n];
    }
  }

  /** A word stays on the line if its top is within 3 points of the line's, or its bottom. */
  lemma WithinThreePoints(w: Word, line: Rect)
    ensures OnLine(w, line) <==>
      line.y0 - 3.0 <= w.box.y0 <= line.y0 + 3.0 || line.y1 - 3.0 <= w.box.y1 <= line.y1 + 3.0
  {
  }

  // ----------------------------------------------------------------------- the code

  function InsertWord(line: seq<Word>, w: Word): seq<Word> {
    if line == [] then [w]
    else
      var n := |line| - 1;
      if line[n].box.x0 <= w.box.x0 then line + [w] else InsertWord(line[..n], w) + [line[n]]
  }

  lemma AtXAppend(line: seq<Word>, w: Word, x: real)
    ensures AtX(line + [w], x) == AtX(line, x) + OnlyAtX(w, x)
  {
    assert (line + [w])[..|line|] == line;
  }

  lemma {:induction false} InsertKeepsAtX(line: seq<Word>, w: Word, x: real)
    ensures AtX(InsertWord(line, w), x) == AtX(line, x) + OnlyAtX(w, x)
    ensures |InsertWord(line, w)| == |line| + 1
  {
    if line == [] {
      assert [w][..0] == [];
    } else {
      var n := |line| - 1;
      if line[n].box.x0 <= w.box.x0 {
        AtXAppend(line, w, x);
      } else {
        InsertKeepsAtX(line[..n], w, x);
        AtXAppend(InsertWord(line[..n], w), line[n], x);
        Swap(AtX(line[..n], x), OnlyAtX(w, x), OnlyAtX(line[n], x));
      }
    }
  }

  /** Words with different left edges do not both count. */
  lemma Swap(a: seq<Word>, b: seq<Word>, c: seq<Word>)
    requires b == [] || c == []
    ensures a + b + c == a + c + b
  {
  }

  lemma {:induction false} InsertKeepsOrder(line: seq<Word>, w: Word)
    requires LeftToRight(line)
    ensures LeftToRight(InsertWord(line, w)) && InsertWord(line, w) != []
    ensures InsertWord(line, w)[|InsertWord(line, w)| - 1].box.x0 <= Max(w.box.x0, if line == [] then w.box.x0 else line[|line| - 1].box.x0)
  {
    if line != [] {
      var n := |line| - 1;
      if line[n].box.x0 > w.box.x0 {
        InsertKeepsOrder(line[..n], w);
        var front := InsertWord(line[..n], w);
        assert front[|front| - 1].box.x0 <= line[n].box.x0;
      }
    }
  }

  method SortLine(line: seq<Word>) returns (sorted: seq<Word>)
    ensures StablySorted(line, sorted)
  {
    sorted := [];
    for i := 0 to |line|
      invariant StablySorted(line[..i], sorted)
    {
      assert line[..i + 1] == line[..i] + [line[i]];
      forall x ensures AtX(InsertWord(sorted, line[i]), x) == AtX(line[..i + 1], x) {
        InsertKeepsAtX(sorted, line[i], x);
        AtXAppend(line[..i], line[i], x);
      }
      InsertKeepsAtX(sorted, line[i], 0.0);
      InsertKeepsOrder(sorted, line[i]);
      sorted := InsertWord(sorted, line[i]);
    }
    assert line[..|line|] == line;
  }

  ghost predicate AllSorted(lines: seq<seq<Word>>, sorted: seq<seq<Word>>) {
    |sorted| == |lines| && forall i :: 0 <= i < |lines| ==> StablySorted(lines[i], sorted[i])
  }

  /** The output is the lines of the input, in order, each stably sorted. */
  ghost predicate InReadingOrder(words: seq<Word>, out: seq<Word>, lines: seq<seq<Word>>, sorted: seq<seq<Word>>) {
    Flatten(lines) == words && Lines(lines) && Flatten(sorted) == out && AllSorted(lines, sorted)
  }

  lemma FlattenAppend<T>(parts: seq<seq<T>>, part: seq<T>)
    ensures Flatten(parts + [part]) == Flatten(parts) + part
  {
    assert (parts + [part])[..|parts|] == parts;
  }

  lemma LineGrows(line: seq<Word>, w: Word)
    requires IsLine(line) && OnLine(w, LineBox(line))
    ensures IsLine(line + [w]) && LineBox(line + [w]) == Hull(LineBox(line), w.box)
  {
    var longer := line + [w];
    assert longer[..|line|] == line;
    forall k | 1 <= k < |longer| ensures Follows(longer, k) {
      if k < |line| { assert longer[..k] == line[..k] && Follows(line, k); }
    }
  }

  lemma LinesAppend(lines: seq<seq<Word>>, line: seq<Word>)
    requires Lines(lines) && IsLine(line)
    requires lines != [] ==> !OnLine(line[0], LineBox(lines[|lines| - 1]))
    ensures Lines(lines + [line])
  {
    var longer := lines + [line];
    forall i | 1 <= i < |longer| ensures Breaks(longer, i) {
      if i < |lines| { assert Breaks(lines, i); }
    }
  }

  lemma SortedAppend(lines: seq<seq<Word>>, sorted: seq<seq<Word>>, line: seq<Word>, done: seq<Word>)
    requires AllSorted(lines, sorted) && StablySorted(line, done)
    ensures AllSorted(lines + [line], sorted + [done])
  {
    forall i | 0 <= i < |lines| + 1 ensures StablySorted((lines + [line])[i], (sorted + [done])[i]) {
      assert i < |lines| ==> (lines + [line])[i] == lines[i] && (sorted + [done])[i] == sorted[i];
    }
  }

  /** Closing a line. */
  lemma CloseLine(nwords: seq<Word>, lines: seq<seq<Word>>, sorted: seq<seq<Word>>, line: seq<Word>, done: seq<Word>)
    requires InReadingOrder(Flatten(lines), nwords, lines, sorted) && IsLine(line) && StablySorted(line, done)
    requires lines != [] ==> !OnLine(line[0], LineBox(lines[|lines| - 1]))
    ensures InReadingOrder(Flatten(lines) + line, nwords + done, lines + [line], sorted + [done])
    ensures Flatten(lines + [line]) == Flatten(lines) + line
  {
    FlattenAppend(lines, line);
    FlattenAppend(sorted, done);
    LinesAppend(lines, line);
    SortedAppend(lines, sorted, line, done);
  }

  /** The first i words are cut into finished lines, sorted into the output, and the line at
      hand with its running box. */
  ghost predicate Cut(words: seq<Word>, i: nat, nwords: seq<Word>, lines: seq<seq<Word>>, sorted: seq<seq<Word>>,
                      line: seq<Word>, box: Rect)
  {
    && i <= |words| && Flatten(lines) + line == words[..i]
    && InReadingOrder(Flatten(lines), nwords, lines, sorted)
    && IsLine(line) && box == LineBox(line)
    && (lines != [] ==> !OnLine(line[0], LineBox(lines[|lines| - 1])))
  }

  lemma CutFirst(words: seq<Word>)
    requires words != []
    ensures Cut(words, 1, [], [], [], [words[0]], words[0].box)
  {
  }

  lemma CutOnLine(words: seq<Word>, i: nat, nwords: seq<Word>, lines: seq<seq<Word>>, sorted: seq<seq<Word>>,
                  line: seq<Word>, box: Rect)
    requires i < |words| && Cut(words, i, nwords, lines, sorted, line, box) && OnLine(words[i], box)
    ensures Cut(words, i + 1, nwords, lines, sorted, line + [words[i]], Hull(box, words[i].box))
  {
    LineGrows(line, words[i]);
    assert Flatten(lines) + (line + [words[i]]) == words[..i] + [words[i]] == words[..i + 1];
  }

  lemma CutNewLine(words: seq<Word>, i: nat, nwords: seq<Word>, lines: seq<seq<Word>>, sorted: seq<seq<Word>>,
                   line: seq<Word>, box: Rect, done: seq<Word>)
    requires i < |words| && Cut(words, i, nwords, lines, sorted, line, box) && !OnLine(words[i], box)
    requires StablySorted(line, done)
    ensures Cut(words, i + 1, nwords + done, lines + [line], sorted + [done], [words[i]], words[i].box)
  {
    CloseLine(nwords, lines, sorted, line, done);
    assert words[..i + 1] == words[..i] + [words[i]];
  }

  lemma CutDone(words: seq<Word>, nwords: seq<Word>, lines: seq<seq<Word>>, sorted: seq<seq<Word>>,
                line: seq<Word>, box: Rect, done: seq<Word>)
    requires Cut(words, |words|, nwords, lines, sorted, line, box) && StablySorted(line, done)
    ensures InReadingOrder(words, nwords + done, lines + [line], sorted + [done])
  {
    CloseLine(nwords, lines, sorted, line, done);
    assert words[..|words|] == words;
  }

  method SortWords(words: seq<Word>) returns (nwords: seq<Word>)
    ensures exists lines, sorted :: InReadingOrder(words, nwords, lines, sorted)
  {
    nwords := [];
    ghost var lines: seq<seq<Word>>, sorted: seq<seq<Word>> := [], [];
    if words == [] {
      assert InReadingOrder(words, [], lines, sorted);
      return;
    }
    var line := [words[0]];
    var box := words[0].box;
    CutFirst(words);
    for i := 1 to |words|
      invariant Cut(words, i, nwords, lines, sorted, line, box)
    {
      var w := words[i];
      if OnLine(w, box) {
        CutOnLine(words, i, nwords, lines, sorted, line, box);
        line := line + [w];
        box := Hull(box, w.box);
      } else {
        var done := SortLine(line);
        CutNewLine(words, i, nwords, lines, sorted, line, box, done);
        nwords := nwords + done;
        lines, sorted := lines + [line], sorted + [done];
        line := [w];
        box := w.box;
      }
    }
    var done := SortLine(line);
    CutDone(words, nwords, lines, sorted, line, box, done);
    nwords := nwords + done;
  }

  // ------------------------------------------------------------------- what it means

  lemma {:induction false} AtXMembers(line: seq<Word>, w: Word)
    ensures multiset(AtX(line, w.box.x0))[w] == multiset(line)[w]
  {
    if line != [] {
      var n := |line| - 1;
      AtXMembers(line[..n], w);
      assert line == line[..n] + [line[n]];
    }
  }

  /** Nothing is lost or doubled in a line. */
  lemma SortedIsPermutation(line: seq<Word>, sorted: seq<Word>)
    requires StablySorted(line, sorted)
    ensures multiset(sorted) == multiset(line)
  {
    forall w ensures multiset(sorted)[w] == multiset(line)[w] {
      AtXMembers(line, w);
      AtXMembers(sorted, w);
      assert AtX(sorted, w.box.x0) == AtX(line, w.box.x0);
    }
  }

  lemma {:induction false} PartsPermuted(lines: seq<seq<Word>>, sorted: seq<seq<Word>>)
    requires AllSorted(lines, sorted)
    ensures multiset(Flatten(sorted)) == multiset(Flatten(lines))
  {
    if lines != [] {
      var n := |lines| - 1;
      PartsPermuted(lines[..n], sorted[..n]);
      SortedIsPermutation(lines[n], sorted[n]);
    }
  }

  /** The page keeps exactly its words. */
  lemma ReadingOrderIsPermutation(words: seq<Word>, out: seq<Word>, lines: seq<seq<Word>>, sorted: seq<seq<Word>>)
    requires InReadingOrder(words, out, lines, sorted)
    ensures multiset(out) == multiset(words)
  {
    PartsPermuted(lines, sorted);
  }
}
