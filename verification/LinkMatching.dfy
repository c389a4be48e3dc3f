/** Attaching a span's links to the pieces of its text: each piece takes the first unused
    link of a platform it mentions, or else the first unused link. */
module LinkMatching {
  import opened Wrappers
  import opened TextGuards

  datatype Platform = Platform(name: string, keywords: seq<string>)

  const PLATFORMS: seq<Platform> := [
    Platform("github", ["github", "git"]),
    Platform("linkedin", ["linkedin", "linked"]),
    Platform("hackerrank", ["hackerrank", "hacker"]),
    Platform("twitter", ["twitter", "tweet"]),
    Platform("portfolio", ["portfolio", "site", "website"]),
    Platform("behance", ["behance"]),
    Platform("dribbble", ["dribbble"]),
    Platform("leetcode", ["leetcode", "leet"]),
    Platform("stackoverflow", ["stackoverflow", "stack"])
  ]

  /** Lower-casing and splitting, as arbitrary functions. */
  datatype Text = Text(lower: string -> string, atPipes: string -> seq<string>, words: string -> seq<string>)

  predicate Mentions(part: string, p: nat, t: Text)
    requires p < |PLATFORMS|
  {
    exists k :: k in PLATFORMS[p].keywords && Occurs(t.lower(part), k)
  }

  predicate Serves(uri: string, p: nat, t: Text)
    requires p < |PLATFORMS|
  {
    Occurs(t.lower(uri), PLATFORMS[p].name)
  }

  /** Link i is an unused one that serves platform p. */
  predicate Candidate(links: seq<string>, used: set<nat>, p: nat, i: nat, t: Text)
    requires p < |PLATFORMS|
  {
    i < |links| && i !in used && Serves(links[i], p, t)
  }

  predicate FirstUnused(links: seq<string>, used: set<nat>, i: nat) {
    i < |links| && i !in used && forall k :: 0 <= k < i ==> k in used
  }

  /** The platforms before p give this piece nothing. */
  ghost predicate NothingBefore(part: string, links: seq<string>, used: set<nat>, p: nat, t: Text)
    requires p <= |PLATFORMS|
  {
    forall q, i: nat :: 0 <= q < p && Mentions(part, q, t) ==> !Candidate(links, used, q, i, t)
  }

  /** Link i is what the platforms mentioned give this piece. */
  ghost predicate ByPlatform(part: string, links: seq<string>, used: set<nat>, i: nat, t: Text) {
    exists p: nat :: p < |PLATFORMS| && FirstServing(part, links, used, p, i, t)
  }

  ghost predicate FirstServing(part: string, links: seq<string>, used: set<nat>, p: nat, i: nat, t: Text)
    requires p < |PLATFORMS|
  {
    && Mentions(part, p, t) && Candidate(links, used, p, i, t)
    && NothingBefore(part, links, used, p, t)
    && (forall k :: 0 <= k < i ==> !Candidate(links, used, p, k, t))
  }

  /** A choice is one unused link, and there is none only when all are used. */
  predicate Takes(links: nat, used: set<nat>, choice: Option<nat>) {
    match choice
    case Some(i) => i < links && i !in used
    case None => forall k: nat :: k < links ==> k in used
  }

  /** What a piece gets when the links in `used` are gone. */
  ghost predicate Chosen(part: string, links: seq<string>, used: set<nat>, choice: Option<nat>, t: Text) {
    && Takes(|links|, used, choice)
    && (choice.Some? ==>
          || ByPlatform(part, links, used, choice.value, t)
          || (NothingBefore(part, links, used, |PLATFORMS|, t) && FirstUnused(links, used, choice.value)))
  }

  /** The links given to the first n pieces. */
  function Used(choices: seq<Option<nat>>, n: nat): set<nat>
    requires n <= |choices|
  {
    set k | 0 <= k < n && choices[k].Some? :: choices[k].value
  }

  ghost predicate Assigned(parts: seq<string>, links: seq<string>, choices: seq<Option<nat>>, t: Text) {
    && |choices| == |parts|
    && (forall k :: 0 <= k < |parts| ==> Chosen(parts[k], links, Used(choices, k), choices[k], t))
  }

  // ----------------------------------------------------------------------- the code

  method MatchByPlatform(part: string, links: seq<string>, used: set<nat>, t: Text) returns (r: Option<nat>)
    ensures r.Some? ==> r.value < |links| && r.value !in used && ByPlatform(part, links, used, r.value, t)
    ensures r == None ==> NothingBefore(part, links, used, |PLATFORMS|, t)
  {
    for p := 0 to |PLATFORMS|
      invariant NothingBefore(part, links, used, p, t)
    {
      if Mentions(part, p, t) {
        for i := 0 to |links|
          invariant forall k :: 0 <= k < i ==> !Candidate(links, used, p, k, t)
        {
          if i !in used && Serves(links[i], p, t) {
            assert FirstServing(part, links, used, p, i, t);
            return Some(i);
          }
        }
      }
    }
    return None;
  }

  method MatchLeftOver(links: seq<string>, used: set<nat>) returns (r: Option<nat>)
    ensures r.Some? ==> FirstUnused(links, used, r.value)
    ensures r == None ==> Takes(|links|, used, None)
  {
    for i := 0 to |links|
      invariant forall k :: 0 <= k < i ==> k in used
    {
      if i !in used {
        return Some(i);
      }
    }
    return None;
  }

  /** One turn of the loop over the pieces. */
  method MatchPart(part: string, links: seq<string>, used: set<nat>, t: Text) returns (r: Option<nat>)
    ensures Chosen(part, links, used, r, t)
  {
    r := MatchByPlatform(part, links, used, t);
    if r == None {
      r := MatchLeftOver(links, used);
    }
  }

  method MatchPartsToLinks(parts: seq<string>, links: seq<string>, t: Text)
    returns (text: string, choices: seq<Option<nat>>)
    ensures Assigned(parts, links, choices, t)
    ensures Valid(choices, links) && text == Joined(Pieces(parts, links, choices), " | ")
  {
    choices := [];
    var used: set<nat> := {};
    var pieces: seq<string> := [];
    for n := 0 to |parts|
      invariant Assigned(parts[..n], links, choices, t) && used == Used(choices, n)
      invariant Valid(choices, links) && pieces == Pieces(parts[..n], links, choices)
    {
      var matched := MatchPart(parts[n], links, used, t);
      AssignOne(parts[..n], links, choices, t, parts[n], matched);
      assert parts[..n + 1] == parts[..n] + [parts[n]];
      if matched.Some? {
        used := used + {matched.value};
        pieces := pieces + [Anchor(parts[n], links[matched.value])];
      } else {
        pieces := pieces + [parts[n]];
      }
      choices := choices + [matched];
    }
    assert parts[..|parts|] == parts;
    text := Joined(pieces, " | ");
  }

  lemma AssignOne(parts: seq<string>, links: seq<string>, choices: seq<Option<nat>>, t: Text, part: string, choice: Option<nat>)
    requires Assigned(parts, links, choices, t) && Chosen(part, links, Used(choices, |choices|), choice, t)
    ensures Assigned(parts + [part], links, choices + [choice], t)
    ensures Used(choices + [choice], |choices| + 1) == Used(choices, |choices|) + (if choice.Some? then {choice.value} else {})
  {
    var longer := choices + [choice];
    UsedStep(longer, |longer|);
    forall k | 0 <= k <= |choices| ensures Used(longer, k) == Used(choices, k) {
      assert forall j :: 0 <= j < k ==> longer[j] == choices[j];
    }
    forall k | 0 <= k < |longer| ensures Chosen((parts + [part])[k], links, Used(longer, k), longer[k], t) {
      if k < |choices| { assert longer[k] == choices[k] && (parts + [part])[k] == parts[k]; }
    }
  }

  function Anchor(text: string, uri: string): string {
    "[" + text + "](" + uri + ")"
  }

  predicate Valid(choices: seq<Option<nat>>, links: seq<string>) {
    forall k :: 0 <= k < |choices| && choices[k].Some? ==> choices[k].value < |links|
  }

  function Pieces(parts: seq<string>, links: seq<string>, choices: seq<Option<nat>>): seq<string>
    requires |choices| == |parts| && Valid(choices, links)
  {
    seq(|parts|, k requires 0 <= k < |parts| =>
      match choices[k] case Some(i) => Anchor(parts[k], links[i]) case None => parts[k])
  }

  function Joined(pieces: seq<string>, separator: string): string {
    if pieces == [] then "" else if |pieces| == 1 then pieces[0]
    else Joined(pieces[..|pieces| - 1], separator) + separator + pieces[|pieces| - 1]
  }

  /** A piece with a link is written as a Markdown link, one without as it is. */
  lemma PieceText(parts: seq<string>, links: seq<string>, choices: seq<Option<nat>>, k: nat)
    requires |choices| == |parts| && Valid(choices, links) && k < |parts|
    ensures Pieces(parts, links, choices)[k] ==
      if choices[k].None? then parts[k] else "[" + parts[k] + "](" + links[choices[k].value] + ")"
  {
  }

  /** The separator stands between the pieces, and nowhere else. */
  lemma JoinedMore(pieces: seq<string>, last: string, separator: string)
    ensures Joined([], separator) == "" && Joined([last], separator) == last
    ensures pieces != [] ==> Joined(pieces + [last], separator) == Joined(pieces, separator) + separator + last
  {
    assert (pieces + [last])[..|pieces|] == pieces;
  }

  /** A piece that mentions `git` takes the first unused link to GitHub, if there is one. */
  lemma GitTakesGithub(part: string, links: seq<string>, used: set<nat>, i: nat, choice: Option<nat>, t: Text)
    requires Occurs(t.lower(part), "git") && Chosen(part, links, used, choice, t)
    requires i < |links| && i !in used && Occurs(t.lower(links[i]), "github")
    requires forall k | 0 <= k < i && k !in used :: !Occurs(t.lower(links[k]), "github")
    ensures choice == Some(i)
  {
    assert "git" in PLATFORMS[0].keywords by { assert PLATFORMS[0].keywords[1] == "git"; }
    assert Mentions(part, 0, t) && Candidate(links, used, 0, i, t);
    assert NothingBefore(part, links, used, 0, t);
    forall k | 0 <= k < i ensures !Candidate(links, used, 0, k, t) {
      assert k !in used ==> !Occurs(t.lower(links[k]), "github");
    }
    assert FirstServing(part, links, used, 0, i, t);
    ChosenUnique(part, links, used, choice, Some(i), t);
  }

  /** The rule leaves no choice. */
  lemma ChosenUnique(part: string, links: seq<string>, used: set<nat>, c: Option<nat>, d: Option<nat>, t: Text)
    requires Chosen(part, links, used, c, t) && Chosen(part, links, used, d, t)
    ensures c == d
  {
    if c.Some? && d.Some? {
      if ByPlatform(part, links, used, c.value, t) && ByPlatform(part, links, used, d.value, t) {
        var p: nat :| p < |PLATFORMS| && FirstServing(part, links, used, p, c.value, t);
        var q: nat :| q < |PLATFORMS| && FirstServing(part, links, used, q, d.value, t);
        assert !(p < q) && !(q < p);
        assert !(c.value < d.value) && !(d.value < c.value);
      }
    }
  }

  // ------------------------------------------------------------------- conservation

  function Below(n: nat): (s: set<nat>)
    ensures |s| == n && forall k: nat :: k in s <==> k < n
  {
    if n == 0 then {} else Below(n - 1) + {n - 1}
  }

  lemma {:induction false} SubsetSize(a: set<nat>, b: set<nat>)
    requires a <= b
    ensures |a| <= |b|
  {
    if a != {} {
      var x :| x in a;
      SubsetSize(a - {x}, b - {x});
    }
  }

  lemma SameSize(a: set<nat>, b: set<nat>)
    requires a <= b && |a| == |b|
    ensures a == b
  {
    if x :| x in b && x !in a {
      SubsetSize(a, b - {x});
      assert false;
    }
  }

  /** A choice is made exactly while a link is left, and uses one up. */
  lemma TakesWhileLeft(links: nat, used: set<nat>, choice: Option<nat>, all: set<nat>)
    requires all == Below(links) && used <= all && Takes(links, used, choice)
    ensures |used| <= links
    ensures choice.Some? <==> |used| < links
    ensures choice.Some? ==> choice.value in all && choice.value !in used
  {
    SubsetSize(used, all);
    if choice == None {
      assert used == all;
    } else if |used| == links {
      SameSize(used, all);
    }
  }

  ghost predicate AllTake(links: nat, choices: seq<Option<nat>>) {
    forall k :: 0 <= k < |choices| ==> Takes(links, Used(choices, k), choices[k])
  }

  lemma AddOne(s: set<nat>, x: nat)
    requires x !in s
    ensures |s + {x}| == |s| + 1
  {
  }

  lemma UsedStep(choices: seq<Option<nat>>, n: nat)
    requires 0 < n <= |choices|
    ensures Used(choices, n) ==
      Used(choices, n - 1) + (if choices[n - 1].Some? then {choices[n - 1].value} else {})
  {
  }

  /** The first pieces use up one link each, until there is none left. */
  lemma {:induction false} UsedSoFar(links: nat, choices: seq<Option<nat>>, n: nat, all: set<nat>)
    requires AllTake(links, choices) && n <= |choices| && all == Below(links)
    ensures Used(choices, n) <= all
    ensures |Used(choices, n)| == if n <= links then n else links
  {
    if n > 0 {
      UsedSoFar(links, choices, n - 1, all);
      UsedStep(choices, n);
      var before := Used(choices, n - 1);
      assert Takes(links, before, choices[n - 1]);
      TakesWhileLeft(links, before, choices[n - 1], all);
      if choices[n - 1].Some? {
        AddOne(before, choices[n - 1].value);
      }
    }
  }

  /** A piece gets a link exactly while links last: the first min(parts, links) pieces do. */
  lemma LinkedIffEarly(parts: seq<string>, links: seq<string>, choices: seq<Option<nat>>, t: Text, n: nat)
    requires Assigned(parts, links, choices, t) && n < |parts|
    ensures choices[n].Some? <==> n < |links|
  {
    assert AllTake(|links|, choices);
    UsedSoFar(|links|, choices, n, Below(|links|));
    TakesWhileLeft(|links|, Used(choices, n), choices[n], Below(|links|));
  }

  /** No link is given out twice. */
  lemma NoLinkTwice(links: nat, choices: seq<Option<nat>>, a: nat, b: nat)
    requires AllTake(links, choices) && a < b < |choices| && choices[a].Some?
    ensures choices[a] != choices[b]
  {
    assert choices[a].value in Used(choices, b);
    assert Takes(links, Used(choices, b), choices[b]);
  }

  /** Each link goes to exactly one piece. */
  ghost predicate EachOnce(choices: seq<Option<nat>>, links: nat) {
    && (forall i: nat :: i < links ==> exists k :: 0 <= k < |choices| && choices[k] == Some(i))
    && (forall a, b :: 0 <= a < b < |choices| && choices[a].Some? ==> choices[a] != choices[b])
  }

  /** With at least as many pieces as links, every link is used exactly once. */
  lemma EveryLinkUsed(parts: seq<string>, links: seq<string>, choices: seq<Option<nat>>, t: Text)
    requires Assigned(parts, links, choices, t) && |links| <= |parts|
    ensures EachOnce(choices, |links|)
  {
    assert AllTake(|links|, choices);
    forall a, b | 0 <= a < b < |choices| && choices[a].Some? ensures choices[a] != choices[b] {
      NoLinkTwice(|links|, choices, a, b);
    }
    UsedSoFar(|links|, choices, |choices|, Below(|links|));
    SameSize(Used(choices, |choices|), Below(|links|));
    forall i: nat | i < |links| ensures exists k :: 0 <= k < |choices| && choices[k] == Some(i) {
      assert i in Used(choices, |choices|);
    }
  }

  // --------------------------------------------------------------------- the caller

  /** One piece, one link, in order. */
  method Zip(parts: seq<string>, links: seq<string>, separator: string)
    returns (text: string, choices: seq<Option<nat>>)
    requires |parts| == |links|
    ensures |choices| == |parts| && forall k :: 0 <= k < |parts| ==> choices[k] == Some(k)
    ensures text == Joined(Pieces(parts, links, choices), separator)
  {
    var pieces: seq<string> := [];
    choices := [];
    for i := 0 to |parts|
      invariant |pieces| == |choices| == i
      invariant forall k :: 0 <= k < i ==> choices[k] == Some(k) && pieces[k] == Anchor(parts[k], links[k])
    {
      pieces := pieces + [Anchor(parts[i], links[i])];
      choices := choices + [Some(i)];
    }
    assert pieces == Pieces(parts, links, choices);
    text := Joined(pieces, separator);
  }

  datatype Resolution =
    | ByPipe(choices: seq<Option<nat>>)
    | ByWord(choices: seq<Option<nat>>)
    | WholeSpan

  /** As many pieces as links go one to one, in order; more of them are matched by the rule. */
  ghost predicate Given(parts: seq<string>, links: seq<string>, choices: seq<Option<nat>>, t: Text) {
    if |parts| == |links| then |choices| == |parts| && forall k: nat :: k < |parts| ==> choices[k] == Some(k)
    else Assigned(parts, links, choices, t)
  }

  /** Which way the links of a span are resolved, the text that comes out, and that unless
      the whole span goes to the first link, every link is used exactly once. */
  method ResolveMultipleLinks(span: string, links: seq<string>, t: Text) returns (text: string, how: Resolution)
    requires links != []
    ensures how.ByPipe? <==> '|' in span && |t.atPipes(span)| >= |links|
    ensures how.ByWord? <==> !how.ByPipe? && |t.words(span)| >= |links|
    ensures !how.WholeSpan? ==> EachOnce(how.choices, |links|)
    ensures how.ByPipe? ==>
      && |how.choices| == |t.atPipes(span)| && Valid(how.choices, links)
      && Given(t.atPipes(span), links, how.choices, t)
      && text == Joined(Pieces(t.atPipes(span), links, how.choices), " | ")
    ensures how.ByWord? ==>
      && |how.choices| == |t.words(span)| && Valid(how.choices, links)
      && Given(t.words(span), links, how.choices, t)
      && text == Joined(Pieces(t.words(span), links, how.choices),
                        if |t.words(span)| == |links| then " " else " | ")
    ensures how.WholeSpan? ==> text == "[" + span + "](" + links[0] + ")"
  {
    if '|' in span {
      var parts := t.atPipes(span);
      if |parts| == |links| {
        var choices;
        text, choices := Zip(parts, links, " | ");
        return text, ByPipe(choices);
      } else if |parts| >= |links| {
        var choices;
        text, choices := MatchPartsToLinks(parts, links, t);
        EveryLinkUsed(parts, links, choices, t);
        return text, ByPipe(choices);
      }
    }
    var words := t.words(span);
    if |words| >= |links| {
      var choices;
      if |words| == |links| {
        text, choices := Zip(words, links, " ");
      } else {
        text, choices := MatchPartsToLinks(words, links, t);
        EveryLinkUsed(words, links, choices, t);
      }
      return text, ByWord(choices);
    }
    return Anchor(span, links[0]), WholeSpan;
  }
}
