/** Printed JSON documents (RFC 8259, sections 4, 5 and 7) with any layout, cut at a
    point, and what the repair makes of them. */
module JsonDocuments {
  import opened JsonRepair

  /** One printed character of a string: itself, or a backslash escape. */
  datatype Unit = Plain(c: char) | Escape(c: char)

  /** What precedes a value inside its container: blanks, or a key and a colon. */
  datatype Label =
    | Bare(before: string)
    | Key(before: string, key: seq<Unit>, gap: string, lead: string)

  datatype Item = Item(tag: Label, value: Node, after: string)

  /** Numbers and literals, strings, arrays and objects. */
  datatype Node =
    | Atom(text: string)
    | Text(units: seq<Unit>)
    | Container(opening: char, blank: string, items: seq<Item>)

  /** An open container: its finished items and the label of the item being written. */
  datatype Frame = Frame(opening: char, done: seq<Item>, tag: Label)

  // ------------------------------------------------------------- well-formed

  predicate Blank(s: string) {
    forall i | 0 <= i < |s| :: s[i] == ' ' || s[i] == '\t' || s[i] == '\n' || s[i] == '\r'
  }

  predicate UnitOk(u: Unit) {
    match u
    case Plain(c) => c != '"' && c != '\\'
    case Escape(c) => c in "\"\\/bfnrtu"
  }

  predicate UnitsOk(us: seq<Unit>) {
    forall i | 0 <= i < |us| :: UnitOk(us[i])
  }

  predicate LabelOk(opening: char, l: Label) {
    match l
    case Bare(before) => opening == '[' && Blank(before)
    case Key(before, key, gap, lead) =>
      opening == '{' && Blank(before) && UnitsOk(key) && Blank(gap) && Blank(lead)
  }

  /** The characters of numbers and of `true`, `false` and `null`. */
  predicate AtomChar(c: char) {
    'a' <= c <= 'z' || '0' <= c <= '9' || c == '+' || c == '-' || c == '.' || c == 'E'
  }

  predicate ItemOk(opening: char, it: Item)
    decreases it
  {
    LabelOk(opening, it.tag) && NodeOk(it.value) && Blank(it.after)
  }

  predicate NodeOk(n: Node)
    decreases n
  {
    match n
    case Atom(text) => text != [] && forall i | 0 <= i < |text| :: AtomChar(text[i])
    case Text(units) => UnitsOk(units)
    case Container(opening, blank, items) =>
      opening in "[{" && Blank(blank) && forall i | 0 <= i < |items| :: ItemOk(opening, items[i])
  }

  predicate FrameOk(f: Frame) {
    f.opening in "[{" && LabelOk(f.opening, f.tag) && forall i | 0 <= i < |f.done| :: ItemOk(f.opening, f.done[i])
  }

  predicate FramesOk(fs: seq<Frame>) {
    forall i | 0 <= i < |fs| :: FrameOk(fs[i])
  }

  // ---------------------------------------------------------------- printing

  function PrintUnit(u: Unit): string {
    match u
    case Plain(c) => [c]
    case Escape(c) => ['\\', c]
  }

  function PrintUnits(us: seq<Unit>): string {
    if us == [] then "" else PrintUnits(us[..|us| - 1]) + PrintUnit(us[|us| - 1])
  }

  function Quoted(us: seq<Unit>): string {
    "\"" + PrintUnits(us) + "\""
  }

  function PrintLabel(l: Label): string {
    match l
    case Bare(before) => before
    case Key(before, key, gap, lead) => before + Quoted(key) + gap + ":" + lead
  }

  function Print(n: Node): string
    decreases n, 0
  {
    match n
    case Atom(text) => text
    case Text(units) => Quoted(units)
    case Container(opening, blank, items) => [opening] + PrintItems(blank, items) + (if opening == '{' then "}" else "]")
  }

  function PrintItems(blank: string, items: seq<Item>): string
    decreases items, |items| + 1
  {
    if items == [] then blank else PrintDone(items[..|items| - 1]) + PrintItem(items[|items| - 1])
  }

  function PrintItem(it: Item): string
    decreases it, 0
  {
    PrintLabel(it.tag) + Print(it.value) + it.after
  }

  /** Finished items, each followed by its comma. */
  function PrintDone(items: seq<Item>): string
    decreases items, |items|
  {
    if items == [] then ""
    else PrintDone(items[..|items| - 1]) + PrintItem(items[|items| - 1]) + ","
  }

  function PrintFrame(f: Frame): string {
    [f.opening] + PrintDone(f.done) + PrintLabel(f.tag)
  }

  /** The text up to the value being written; outermost frame first. */
  function OpenText(fs: seq<Frame>): string {
    if fs == [] then "" else OpenText(fs[..|fs| - 1]) + PrintFrame(fs[|fs| - 1])
  }

  function Openings(fs: seq<Frame>): string {
    seq(|fs|, i requires 0 <= i < |fs| => fs[i].opening)
  }

  /** The document truncated after `n`: every open container ends there. */
  function Plug(fs: seq<Frame>, n: Node): Node {
    if fs == [] then n
    else
      var f := fs[|fs| - 1];
      Plug(fs[..|fs| - 1], Container(f.opening, "", f.done + [Item(f.tag, n, "")]))
  }

  // ----------------------------------------------------- scanning what was printed

  function Outside(stack: string): Scanner {
    Scanner(stack, false, false)
  }

  function Inside(stack: string): Scanner {
    Scanner(stack, true, false)
  }

  /** Text that changes nothing outside strings: blanks, commas, colons, atoms. */
  lemma {:induction false} ScanInert(stack: string, s: string)
    requires forall i | 0 <= i < |s| :: s[i] != '"' && !Opener(s[i]) && !Closer(s[i])
    ensures Outside(stack).Run(s) == Outside(stack)
    decreases |s|
  {
    if s != [] {
      ScanInert(stack, s[1..]);
    }
  }

  lemma {:induction false} ScanUnits(stack: string, us: seq<Unit>)
    requires UnitsOk(us)
    ensures Inside(stack).Run(PrintUnits(us)) == Inside(stack)
  {
    if us != [] {
      var front, u := us[..|us| - 1], us[|us| - 1];
      ScanUnits(stack, front);
      RunConcat(Inside(stack), PrintUnits(front), PrintUnit(u));
      match u
      case Plain(c) =>
        RunOneMore(Inside(stack), "", c);
        assert [] + [c] == PrintUnit(u);
      case Escape(c) =>
        RunOneMore(Inside(stack), "\\", c);
        RunOneMore(Inside(stack), "", '\\');
        assert "\\" + [c] == PrintUnit(u) && "" + ['\\'] == "\\";
    }
  }

  lemma ScanQuoted(stack: string, us: seq<Unit>)
    requires UnitsOk(us)
    ensures Outside(stack).Run("\"" + PrintUnits(us)) == Inside(stack)
    ensures Outside(stack).Run(Quoted(us)) == Outside(stack)
  {
    ScanUnits(stack, us);
    RunConcat(Outside(stack), "\"", PrintUnits(us));
    assert Outside(stack).Run("\"") == Inside(stack) by { RunOneMore(Outside(stack), "", '"'); }
    RunOneMore(Outside(stack), "\"" + PrintUnits(us), '"');
  }

  lemma ScanLabel(stack: string, opening: char, l: Label)
    requires LabelOk(opening, l)
    ensures Outside(stack).Run(PrintLabel(l)) == Outside(stack)
  {
    match l
    case Bare(before) => ScanInert(stack, before);
    case Key(before, key, gap, lead) =>
      ScanInert(stack, before);
      ScanQuoted(stack, key);
      ScanInert(stack, gap + ":" + lead);
      RunConcat(Outside(stack), before, Quoted(key));
      RunConcat(Outside(stack), before + Quoted(key), gap + ":" + lead);
      assert PrintLabel(l) == before + Quoted(key) + (gap + ":" + lead);
  }

  /** A complete value leaves the scanner where it was. */
  lemma {:induction false} ScanNode(stack: string, n: Node)
    requires NodeOk(n)
    ensures Outside(stack).Run(Print(n)) == Outside(stack)
    decreases n, 0
  {
    match n
    case Atom(text) => ScanInert(stack, text);
    case Text(units) => ScanQuoted(stack, units);
    case Container(opening, blank, items) =>
      ScanItems(stack + [opening], opening, blank, items);
      ScanWrapped(stack, opening, PrintItems(blank, items));
  }

  lemma {:induction false} ScanItems(stack: string, opening: char, blank: string, items: seq<Item>)
    requires Blank(blank) && forall i | 0 <= i < |items| :: ItemOk(opening, items[i])
    ensures Outside(stack).Run(PrintItems(blank, items)) == Outside(stack)
    decreases items, |items| + 1
  {
    if items == [] {
      ScanInert(stack, blank);
    } else {
      var front, last := items[..|items| - 1], items[|items| - 1];
      ScanDone(stack, opening, front);
      ScanItem(stack, opening, last);
      RunConcat(Outside(stack), PrintDone(front), PrintItem(last));
    }
  }

  lemma ScanWrapped(stack: string, opening: char, inner: string)
    requires Opener(opening) && Outside(stack + [opening]).Run(inner) == Outside(stack + [opening])
    ensures Outside(stack).Run([opening] + inner + [CloserOf(opening)]) == Outside(stack)
  {
    RunOneMore(Outside(stack), "", opening);
    assert "" + [opening] == [opening];
    RunConcat(Outside(stack), [opening], inner);
    RunOneMore(Outside(stack), [opening] + inner, CloserOf(opening));
    assert (stack + [opening])[..|stack|] == stack;
  }

  lemma {:induction false} ScanItem(stack: string, opening: char, it: Item)
    requires ItemOk(opening, it)
    ensures Outside(stack).Run(PrintItem(it)) == Outside(stack)
    decreases it, 0
  {
    ScanLabel(stack, opening, it.tag);
    ScanNode(stack, it.value);
    ScanInert(stack, it.after);
    RunConcat(Outside(stack), PrintLabel(it.tag), Print(it.value));
    RunConcat(Outside(stack), PrintLabel(it.tag) + Print(it.value), it.after);
  }

  lemma {:induction false} ScanDone(stack: string, opening: char, items: seq<Item>)
    requires forall i | 0 <= i < |items| :: ItemOk(opening, items[i])
    ensures Outside(stack).Run(PrintDone(items)) == Outside(stack)
    decreases items, |items|
  {
    if items != [] {
      var front, last := items[..|items| - 1], items[|items| - 1];
      ScanDone(stack, opening, front);
      ScanItem(stack, opening, last);
      RunConcat(Outside(stack), PrintDone(front), PrintItem(last));
      RunOneMore(Outside(stack), PrintDone(front) + PrintItem(last), ',');
    }
  }

  lemma OpeningsSplit(fs: seq<Frame>)
    requires fs != []
    ensures Openings(fs) == Openings(fs[..|fs| - 1]) + [fs[|fs| - 1].opening]
    ensures Openings(fs)[..|fs| - 1] == Openings(fs[..|fs| - 1])
  {
  }

  lemma ScanFrame(stack: string, f: Frame)
    requires FrameOk(f)
    ensures Outside(stack).Run(PrintFrame(f)) == Outside(stack + [f.opening])
  {
    var deeper := stack + [f.opening];
    RunOneMore(Outside(stack), "", f.opening);
    assert "" + [f.opening] == [f.opening];
    ScanDone(deeper, f.opening, f.done);
    ScanLabel(deeper, f.opening, f.tag);
    RunConcat(Outside(stack), [f.opening], PrintDone(f.done));
    RunConcat(Outside(stack), [f.opening] + PrintDone(f.done), PrintLabel(f.tag));
  }

  /** After the open part, exactly the frames' containers are on the stack. */
  lemma {:induction false} ScanOpenText(fs: seq<Frame>)
    requires FramesOk(fs)
    ensures START.Run(OpenText(fs)) == Outside(Openings(fs))
  {
    if fs != [] {
      var front, f := fs[..|fs| - 1], fs[|fs| - 1];
      ScanOpenText(front);
      OpeningsSplit(fs);
      ScanFrame(Openings(front), f);
      RunConcat(START, OpenText(front), PrintFrame(f));
    }
  }

  // --------------------------------------------------------- closing what is open

  lemma CloseOneFrame(f: Frame, n: Node)
    ensures Print(Container(f.opening, "", f.done + [Item(f.tag, n, "")]))
         == PrintFrame(f) + Print(n) + [CloserOf(f.opening)]
  {
    var it := Item(f.tag, n, "");
    var items := f.done + [it];
    assert items[..|items| - 1] == f.done && items[|items| - 1] == it;
    assert PrintItems("", items) == PrintDone(f.done) + PrintItem(it);
    assert PrintItem(it) == PrintLabel(f.tag) + Print(n);
  }

  /** Appending the closers prints the truncated document. */
  lemma {:induction false} ClosersPrintPlugged(fs: seq<Frame>, n: Node)
    ensures OpenText(fs) + Print(n) + Closers(Openings(fs)) == Print(Plug(fs, n))
  {
    if fs == [] {
      assert "" + Print(n) + "" == Print(n);
    } else {
      var front, f := fs[..|fs| - 1], fs[|fs| - 1];
      var closed := Container(f.opening, "", f.done + [Item(f.tag, n, "")]);
      ClosersPrintPlugged(front, closed);
      CloseOneFrame(f, n);
      OpeningsSplit(fs);
      PlugStep(OpenText(front), PrintFrame(f), Print(n), CloserOf(f.opening), Closers(Openings(front)));
    }
  }

  /** The truncated document is a well-formed one. */
  lemma {:induction false} PlugIsDocument(fs: seq<Frame>, n: Node)
    requires FramesOk(fs) && NodeOk(n)
    ensures NodeOk(Plug(fs, n))
  {
    if fs != [] {
      var f := fs[|fs| - 1];
      var item := Item(f.tag, n, "");
      assert ItemOk(f.opening, item);
      PlugIsDocument(fs[..|fs| - 1], Container(f.opening, "", f.done + [item]));
    }
  }

  lemma PlugStep(a: string, b: string, c: string, closer: char, rest: string)
    ensures (a + b) + c + ([closer] + rest) == a + (b + c + [closer]) + rest
  {
  }

  lemma PrintEndsClean(n: Node)
    requires NodeOk(n)
    ensures Print(n) != [] && !Dangling(Print(n)[|Print(n)| - 1])
  {
    match n
    case Atom(text) => assert AtomChar(text[|text| - 1]);
    case Text(units) => assert Print(n)[|Print(n)| - 1] == '"';
    case Container(opening, blank, items) => assert Print(n)[|Print(n)| - 1] == CloserOf(opening);
  }

  lemma StripKeeps(s: string)
    requires s != [] && !Dangling(s[|s| - 1])
    ensures StripTail(s) == s
  {
  }

  /** Blanks, tabs, line ends, colons, commas, opening brackets and backticks. */
  predicate AllDangling(s: string) {
    forall i | 0 <= i < |s| :: s[i] in " \t\n\r:,{[`"
  }

  /** A container's text stands between its own brackets. */
  lemma ContainerBrackets(n: Node)
    requires NodeOk(n) && n.Container?
    ensures var text := Print(n);
      && |text| >= 2
      && ((n.opening == '[' && text[0] == '[' && text[|text| - 1] == ']')
          || (n.opening == '{' && text[0] == '{' && text[|text| - 1] == '}'))
  {
    assert Print(n)[0] == n.opening;
  }

  // ------------------------------------------------------------ main results

  /** A document cut after any complete value, with any tail of stripped characters, is
      repaired to the printed form of the document that ends there. */
  lemma RepairOfCutAfterValue(fs: seq<Frame>, n: Node, tail: string)
    requires FramesOk(fs) && NodeOk(n) && AllDangling(tail)
    ensures Repaired(OpenText(fs) + Print(n) + tail) == Print(Plug(fs, n))
    ensures NodeOk(Plug(fs, n))
  {
    PlugIsDocument(fs, n);
    var cut := OpenText(fs) + Print(n);
    StripCut(OpenText(fs), n, tail);
    ScanOpenText(fs);
    ScanNode(Openings(fs), n);
    RunConcat(START, OpenText(fs), Print(n));
    RepairedOutside(cut + tail, cut, Openings(fs));
    ClosersPrintPlugged(fs, n);
  }

  lemma StripCut(open: string, n: Node, tail: string)
    requires NodeOk(n) && AllDangling(tail)
    ensures StripTail(open + Print(n) + tail) == open + Print(n)
  {
    var cut := open + Print(n);
    PrintEndsClean(n);
    assert cut[|cut| - 1] == Print(n)[|Print(n)| - 1];
    StripConcat(cut, tail);
    StripKeeps(cut);
  }

  /** A complete document is left alone. */
  lemma RepairKeepsComplete(n: Node)
    requires NodeOk(n)
    ensures Repaired(Print(n)) == Print(n)
  {
    assert "" + Print(n) + "" == Print(n);
    RepairOfCutAfterValue([], n, "");
  }

  /** What stripping leaves of a cut string. */
  function TrimUnits(us: seq<Unit>): seq<Unit> {
    if us != [] && us[|us| - 1].Plain? && us[|us| - 1].c in " \t\n\r:,{[`" then TrimUnits(us[..|us| - 1]) else us
  }

  lemma {:induction false} StripCutString(open: string, us: seq<Unit>)
    requires UnitsOk(us)
    ensures StripTail(open + "\"" + PrintUnits(us)) == open + "\"" + PrintUnits(TrimUnits(us))
    ensures UnitsOk(TrimUnits(us))
  {
    var s := open + "\"" + PrintUnits(us);
    if us == [] {
      assert s == open + "\"";
      StripKeeps(s);
    } else {
      var front, u := us[..|us| - 1], us[|us| - 1];
      var body := open + "\"" + PrintUnits(front);
      LastUnit(open, front, u, us);
      if u.Plain? && u.c in " \t\n\r:,{[`" {
        StripConcat(body, [u.c]);
        StripCutString(open, front);
      } else {
        StripKeeps(s);
      }
    }
  }

  lemma LastUnit(open: string, front: seq<Unit>, u: Unit, us: seq<Unit>)
    requires us == front + [u]
    ensures open + "\"" + PrintUnits(us) == open + "\"" + PrintUnits(front) + PrintUnit(u)
    ensures var s := open + "\"" + PrintUnits(us); s[|s| - 1] == u.c
  {
    assert us[..|us| - 1] == front;
    assert PrintUnits(us) == PrintUnits(front) + PrintUnit(u);
  }

  /** A document cut inside a string, between two characters: the string is closed, minus
      its trailing characters of the stripped kind, and so is everything around it. */
  lemma RepairOfCutString(fs: seq<Frame>, us: seq<Unit>)
    requires FramesOk(fs) && UnitsOk(us)
    ensures Repaired(OpenText(fs) + "\"" + PrintUnits(us)) == Print(Plug(fs, Text(TrimUnits(us))))
    ensures NodeOk(Plug(fs, Text(TrimUnits(us))))
  {
    var cut := OpenText(fs) + "\"" + PrintUnits(us);
    var kept := OpenText(fs) + "\"" + PrintUnits(TrimUnits(us));
    StripCutString(OpenText(fs), us);
    PlugIsDocument(fs, Text(TrimUnits(us)));
    ScanCutString(fs, TrimUnits(us));
    RepairedInside(cut, kept, Openings(fs));
    ClosersPrintPlugged(fs, Text(TrimUnits(us)));
    QuoteText(OpenText(fs), TrimUnits(us));
  }

  lemma QuoteText(open: string, us: seq<Unit>)
    ensures open + "\"" + PrintUnits(us) + "\"" == open + Print(Text(us))
  {
    assert Print(Text(us)) == "\"" + PrintUnits(us) + "\"";
  }

  lemma ScanCutString(fs: seq<Frame>, us: seq<Unit>)
    requires FramesOk(fs) && UnitsOk(us)
    ensures START.Run(OpenText(fs) + "\"" + PrintUnits(us)) == Inside(Openings(fs))
  {
    var open, text := OpenText(fs), "\"" + PrintUnits(us);
    ScanOpenText(fs);
    ScanQuoted(Openings(fs), us);
    RunConcat(START, open, text);
    QuotedTail(open, PrintUnits(us));
  }

  lemma QuotedTail(open: string, text: string)
    ensures open + "\"" + text == open + ("\"" + text)
  {
  }

  /** Cut right after an escaping backslash, the string stays open whatever is appended. */
  lemma RepairOfCutEscape(fs: seq<Frame>, us: seq<Unit>)
    requires FramesOk(fs) && UnitsOk(us)
    ensures START.Run(Repaired(OpenText(fs) + "\"" + PrintUnits(us) + "\\")) != START
  {
    var body := OpenText(fs) + "\"" + PrintUnits(us);
    var s := body + "\\";
    StripKeeps(s);
    ScanCutString(fs, us);
    RunOneMore(START, body, '\\');
    assert CutAfterBackslash(s);
    RepairClosesEverything(s);
  }
}
