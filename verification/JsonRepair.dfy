/** Repair of truncated JSON: drop a dangling tail, scan for what is still open, close it. */
module JsonRepair {

  predicate Dangling(c: char) {
    || c == ' ' || c == '\t' || c == '\n' || c == '\r'
    || c == ':' || c == ',' || c == '{' || c == '[' || c == '`'
  }

  predicate Opener(c: char) {
    c == '[' || c == '{'
  }

  predicate Closer(c: char) {
    c == ']' || c == '}'
  }

  function CloserOf(opening: char): char {
    if opening == '{' then '}' else ']'
  }

  // ----------------------------------------------------------- specification

  function StripTail(s: string): (r: string)
    ensures r <= s
    ensures r == [] || !Dangling(r[|r| - 1])
  {
    if s != [] && Dangling(s[|s| - 1]) then StripTail(s[..|s| - 1]) else s
  }

  /** What the scanner remembers: open containers, inside a string, after a backslash. */
  datatype Scanner = Scanner(stack: string, inString: bool, escaped: bool) {
    function Step(c: char): Scanner {
      if inString then
        if escaped then this.(escaped := false)
        else if c == '\\' then this.(escaped := true)
        else if c == '"' then this.(inString := false)
        else this
      else if c == '"' then this.(inString := true)
      else if Opener(c) then this.(stack := stack + [c])
      else if Closer(c) && stack != [] then this.(stack := stack[..|stack| - 1])
      else this
    }

    function Run(s: string): Scanner
      decreases |s|
    {
      if s == [] then this else Step(s[0]).Run(s[1..])
    }
  }

  const START := Scanner("", false, false)

  /** Innermost container first. */
  function Closers(stack: string): string {
    if stack == [] then "" else [CloserOf(stack[|stack| - 1])] + Closers(stack[..|stack| - 1])
  }

  function Repaired(candidate: string): string {
    var fixed := StripTail(candidate);
    var end := START.Run(fixed);
    fixed + (if end.inString then "\"" else "") + Closers(end.stack)
  }

  lemma {:induction false} RunOneMore(q: Scanner, s: string, c: char)
    ensures q.Run(s + [c]) == q.Run(s).Step(c)
    decreases |s|
  {
    if s == [] {
      assert q.Run([c]) == q.Step(c);
    } else {
      assert (s + [c])[1..] == s[1..] + [c];
      RunOneMore(q.Step(s[0]), s[1..], c);
    }
  }

  // ------------------------------------------------------------- the method

  method RepairTruncated(candidate: string) returns (fixed: string)
    ensures fixed == Repaired(candidate)
  {
    fixed := DropTail(candidate);
    var stack, inString := ScanOpen(fixed);
    if inString {
      fixed := fixed + "\"";
    } else {
      assert fixed + "" == fixed;
    }
    fixed := CloseAll(fixed, stack);
  }

  /** The stripping loop. */
  method DropTail(candidate: string) returns (fixed: string)
    ensures fixed == StripTail(candidate)
  {
    var end := |candidate|;
    assert candidate[..end] == candidate;
    while end > 0 && Dangling(candidate[end - 1])
      invariant 0 <= end <= |candidate|
      invariant StripTail(candidate[..end]) == StripTail(candidate)
    {
      assert candidate[..end][..end - 1] == candidate[..end - 1];
      end := end - 1;
    }
    fixed := candidate[..end];
  }

  /** The closing loop, innermost container first. */
  method CloseAll(body: string, stack: string) returns (fixed: string)
    ensures fixed == body + Closers(stack)
  {
    fixed := body;
    var k := |stack|;
    assert stack[..k] == stack;
    while k > 0
      invariant 0 <= k <= |stack|
      invariant fixed + Closers(stack[..k]) == body + Closers(stack)
    {
      k := k - 1;
      assert stack[..k + 1][..k] == stack[..k];
      fixed := fixed + (if stack[k] == '{' then "}" else "]");
    }
    assert fixed + Closers("") == fixed;
  }

  /** The scanning loop: which containers are open, and whether a string is. */
  method ScanOpen(fixed: string) returns (stack: string, inString: bool)
    ensures stack == START.Run(fixed).stack && inString == START.Run(fixed).inString
  {
    stack := "";
    inString := false;
    var escaped := false;
    for i := 0 to |fixed|
      invariant Scanner(stack, inString, escaped) == START.Run(fixed[..i])
    {
      var ch := fixed[i];
      assert fixed[..i + 1] == fixed[..i] + [ch];
      RunOneMore(START, fixed[..i], ch);
      if inString {
        if escaped {
          escaped := false;
        } else if ch == '\\' {
          escaped := true;
        } else if ch == '"' {
          inString := false;
        }
        continue;
      }
      if ch == '"' {
        inString := true;
      } else if Opener(ch) {
        stack := stack + [ch];
      } else if Closer(ch) {
        if stack != "" {
          stack := stack[..|stack| - 1];
        }
      }
    }
    assert fixed[..|fixed|] == fixed;
  }

  // ------------------------------------------------------------ scanner facts

  lemma {:induction false} RunConcat(q: Scanner, a: string, b: string)
    ensures q.Run(a + b) == q.Run(a).Run(b)
    decreases |a|
  {
    if a == [] {
      assert a + b == b;
    } else {
      assert (a + b)[1..] == a[1..] + b;
      RunConcat(q.Step(a[0]), a[1..], b);
    }
  }

  lemma {:induction false} StripConcat(s: string, tail: string)
    requires forall i | 0 <= i < |tail| :: Dangling(tail[i])
    ensures StripTail(s + tail) == StripTail(s)
    decreases |tail|
  {
    if tail == [] {
      assert s + tail == s;
    } else {
      assert (s + tail)[..|s + tail| - 1] == s + tail[..|tail| - 1];
      StripConcat(s, tail[..|tail| - 1]);
    }
  }

  /** Outside strings, the closers empty the stack. */
  lemma {:induction false} ClosersEmptyTheStack(stack: string)
    ensures Scanner(stack, false, false).Run(Closers(stack)) == START
  {
    if stack != [] {
      ClosersEmptyTheStack(stack[..|stack| - 1]);
    }
  }

  /** Inside a string, the closers are just characters. */
  lemma {:induction false} ClosersInString(q: Scanner, stack: string)
    requires q.inString && !q.escaped
    ensures q.Run(Closers(stack)) == q
  {
    if stack != [] {
      ClosersInString(q, stack[..|stack| - 1]);
    }
  }

  lemma {:induction false} EscapedOnlyInStrings(q: Scanner, s: string)
    requires q.escaped ==> q.inString
    ensures q.Run(s).escaped ==> q.Run(s).inString
    decreases |s|
  {
    if s != [] {
      EscapedOnlyInStrings(q.Step(s[0]), s[1..]);
    }
  }

  lemma RepairedOutside(candidate: string, fixed: string, stack: string)
    requires StripTail(candidate) == fixed && START.Run(fixed) == Scanner(stack, false, false)
    ensures Repaired(candidate) == fixed + Closers(stack)
  {
    assert fixed + "" == fixed;
  }

  lemma RepairedInside(candidate: string, fixed: string, stack: string)
    requires StripTail(candidate) == fixed && START.Run(fixed) == Scanner(stack, true, false)
    ensures Repaired(candidate) == fixed + "\"" + Closers(stack)
  {
  }

  // ------------------------------------------------ every input: what is cut, what is added

  /** Exactly the longest tail of blanks, tabs, line ends, colons, commas, opening brackets
      and backticks is cut off. */
  lemma {:induction false} StripsExactly(s: string) returns (k: nat)
    ensures k <= |s| && StripTail(s) == s[..k]
    ensures forall i | k <= i < |s| :: s[i] in " \t\n\r:,{[`"
    ensures k > 0 ==> s[k - 1] !in " \t\n\r:,{[`"
  {
    if s != "" && Dangling(s[|s| - 1]) {
      k := StripsExactly(s[..|s| - 1]);
    } else {
      k := |s|;
    }
  }

  /** A text that ends in any other character loses nothing. */
  lemma RepairKeepsText(s: string)
    requires s != "" && s[|s| - 1] !in " \t\n\r:,{[`"
    ensures s <= Repaired(s)
  {
    var k := StripsExactly(s);
  }

  /** One closer per open container, innermost first: a brace for a brace, a bracket for a
      bracket. */
  lemma {:induction false} ClosersMatch(stack: string, k: nat)
    requires k < |stack|
    ensures |Closers(stack)| == |stack|
    ensures Closers(stack)[k] == if stack[|stack| - 1 - k] == '{' then '}' else ']'
  {
    var front := stack[..|stack| - 1];
    if k > 0 {
      ClosersMatch(front, k - 1);
      assert Closers(stack)[k] == Closers(front)[k - 1];
    } else if front != "" {
      ClosersMatch(front, 0);
    }
  }

  lemma {:induction false} RunsThrough(q: Scanner, s: string)
    requires !q.inString && !q.escaped && q.stack == "" && forall i | 0 <= i < |s| :: s[i] !in "[{\""
    ensures q.Run(s) == q
    decreases |s|
  {
    if s != "" {
      RunsThrough(q.Step(s[0]), s[1..]);
    }
  }

  /** Where no bracket, brace or quote opens anything, nothing is added. */
  lemma NothingToClose(s: string)
    requires forall i | 0 <= i < |s| :: s[i] !in "[{\""
    ensures Repaired(s) == StripTail(s)
  {
    RunsThrough(START, StripTail(s));
    RepairedOutside(s, StripTail(s), "");
    assert StripTail(s) + "" == StripTail(s);
  }

  /** How many containers are open: every opener counts one, and every closer takes one off,
      whichever it is, as long as there is one. */
  function Depth(s: string): nat {
    if s == "" then 0
    else
      var before, c := Depth(s[..|s| - 1]), s[|s| - 1];
      if c in "[{" then before + 1
      else if c in "]}" && before > 0 then before - 1
      else before
  }

  predicate NoQuote(s: string) {
    forall i | 0 <= i < |s| :: s[i] != '"'
  }

  lemma OutsideStep(q: Scanner, c: char)
    requires !q.inString && !q.escaped && c != '"'
    ensures var next := q.Step(c);
      && !next.inString && !next.escaped
      && |next.stack| == (if c in "[{" then |q.stack| + 1
                          else if c in "]}" && |q.stack| > 0 then |q.stack| - 1 else |q.stack|)
  {
  }

  lemma {:induction false} StackIsDepth(s: string)
    requires NoQuote(s)
    ensures var q := START.Run(s); !q.inString && !q.escaped && |q.stack| == Depth(s)
  {
    if s != "" {
      var front, last := s[..|s| - 1], s[|s| - 1];
      StackIsDepth(front);
      RunOneMore(START, front, last);
      assert s == front + [last];
      OutsideStep(START.Run(front), last);
    }
  }

  /** Without strings exactly that many closers are added. */
  lemma RepairClosesDepth(s: string)
    requires NoQuote(s)
    ensures StripTail(s) <= Repaired(s) && |Repaired(s)| == |StripTail(s)| + Depth(StripTail(s))
  {
    var fixed := StripTail(s);
    StackIsDepth(fixed);
    var stack := START.Run(fixed).stack;
    RepairedOutside(s, fixed, stack);
    if stack != "" {
      ClosersMatch(stack, 0);
    }
  }

  // --------------------------------------------------- every input: what repair does

  ghost predicate CutAfterBackslash(candidate: string) {
    START.Run(StripTail(candidate)).escaped
  }

  /** For every text: rescanning the repaired text finds nothing open, unless the text
      was cut right after an escaping backslash. */
  lemma RepairClosesEverything(candidate: string)
    ensures START.Run(Repaired(candidate)) == START <==> !CutAfterBackslash(candidate)
  {
    var fixed := StripTail(candidate);
    var end := START.Run(fixed);
    var quote := if end.inString then "\"" else "";
    EscapedOnlyInStrings(START, fixed);
    RunConcat(START, fixed + quote, Closers(end.stack));
    RunConcat(START, fixed, quote);
    var mid := end.Run(quote);
    if end.escaped {
      ClosersInString(mid, end.stack);
    } else {
      assert mid == Scanner(end.stack, false, false);
      ClosersEmptyTheStack(end.stack);
    }
  }

  lemma {:induction false} ClosersEndClean(stack: string)
    requires stack != []
    ensures !Dangling(Closers(stack)[|Closers(stack)| - 1])
  {
    if |stack| > 1 {
      ClosersEndClean(stack[..|stack| - 1]);
    }
  }

  lemma RepairedEndsClean(candidate: string)
    ensures StripTail(Repaired(candidate)) == Repaired(candidate)
  {
    var fixed := StripTail(candidate);
    var end := START.Run(fixed);
    if end.stack != [] {
      ClosersEndClean(end.stack);
      assert Repaired(candidate)[|Repaired(candidate)| - 1] == Closers(end.stack)[|Closers(end.stack)| - 1];
    } else {
      assert Repaired(candidate) == fixed + (if end.inString then "\"" else "");
    }
  }

  /** Repairing twice is repairing once, under the same condition and no other. */
  lemma RepairIdempotent(candidate: string)
    ensures Repaired(Repaired(candidate)) == Repaired(candidate) <==> !CutAfterBackslash(candidate)
  {
    RepairClosesEverything(candidate);
    RepairedEndsClean(candidate);
    var again := START.Run(Repaired(candidate));
    if again == START {
      assert Repaired(Repaired(candidate)) == Repaired(candidate);
    } else {
      var fixed := StripTail(candidate);
      var end := START.Run(fixed);
      EscapedOnlyInStrings(START, fixed);
      RunConcat(START, fixed + "\"", Closers(end.stack));
      RunConcat(START, fixed, "\"");
      ClosersInString(end.Run("\""), end.stack);
      assert again.inString;
    }
  }
}
