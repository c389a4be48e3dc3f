/** `parse_llm_json`: where the JSON is looked for in an answer, and what is made of it. */
module JsonExtraction {
  import opened Wrappers
  import opened SchemaDialects
  import opened JsonRepair
  import opened JsonDocuments

  /** Outside the code: the JSON parser (a top-level `null` counts as nothing), which
      characters are blank, and which four letters are the tag `json` in any case. */
  datatype Reader = Reader(load: string -> Option<Json>, blank: char -> bool, tag: string -> bool)

  // ----------------------------------------------------------------------- the code

  const FENCE := "```"

  predicate FenceAt(s: string, i: nat) {
    i + 3 <= |s| && s[i] == '`' && s[i + 1] == '`' && s[i + 2] == '`'
  }

  function FindFence(s: string, from: nat): (i: Option<nat>)
    ensures i.None? ==> forall k: nat | from <= k :: !FenceAt(s, k)
    ensures i.Some? ==> from <= i.value && FenceAt(s, i.value) && forall k | from <= k < i.value :: !FenceAt(s, k)
    decreases |s| - from
  {
    if from + 3 > |s| then None else if FenceAt(s, from) then Some(from) else FindFence(s, from + 1)
  }

  function TrimRight(s: string, r: Reader): string {
    if s != "" && r.blank(s[|s| - 1]) then TrimRight(s[..|s| - 1], r) else s
  }

  function TrimLeft(s: string, r: Reader): string {
    if s != "" && r.blank(s[0]) then TrimLeft(s[1..], r) else s
  }

  function Trim(s: string, r: Reader): string {
    TrimLeft(TrimRight(s, r), r)
  }

  function DropTag(s: string, r: Reader): string {
    if |s| >= 4 && r.tag(s[..4]) then s[4..] else s
  }

  /** The contents of the first fence that is closed, without its tag and outer blanks. */
  function ExtractFenced(text: string, r: Reader): Option<string> {
    match FindFence(text, 0)
    case None => None
    case Some(start) =>
      var rest := text[start + 3..];
      match FindFence(rest, 0)
      case None => None
      case Some(end) => Some(Trim(DropTag(rest[..end], r), r))
  }

  /** A single key `result` or `output` around an object or a list is taken off. */
  function Unwrap(v: Json): Json {
    if v.Obj? && v.fields.Keys == {"result"} && (v.fields["result"].Obj? || v.fields["result"].Arr?) then v.fields["result"]
    else if v.Obj? && v.fields.Keys == {"output"} && (v.fields["output"].Obj? || v.fields["output"].Arr?) then v.fields["output"]
    else v
  }

  function Unwrapped(parsed: Option<Json>): Option<Json> {
    match parsed case None => None case Some(v) => Some(Unwrap(v))
  }

  function LoadOrRepair(candidate: string, r: Reader): Option<Json> {
    if r.load(candidate).Some? then r.load(candidate) else r.load(Repaired(candidate))
  }

  function IndexOf(s: string, from: nat): (i: int)
    requires from <= |s|
    ensures i == -1 ==> forall k | from <= k < |s| :: s[k] != '{'
    ensures i != -1 ==> from <= i < |s| && s[i] == '{' && forall k | from <= k < i :: s[k] != '{'
    decreases |s| - from
  {
    if from == |s| then -1 else if s[from] == '{' then from else IndexOf(s, from + 1)
  }

  function LastCloser(s: string): (i: int)
    ensures i == -1 ==> forall k | 0 <= k < |s| :: !Closer(s[k])
    ensures i != -1 ==> 0 <= i < |s| && Closer(s[i]) && forall k | i < k < |s| :: !Closer(s[k])
  {
    if s == [] then -1 else if Closer(s[|s| - 1]) then |s| - 1 else LastCloser(s[..|s| - 1])
  }

  /** From the first brace to the last closer. */
  function Candidate(cleaned: string): Option<string> {
    var start := IndexOf(cleaned, 0);
    if start == -1 then None
    else
      var rest := cleaned[start..];
      Some(if LastCloser(rest) == -1 then rest else rest[..LastCloser(rest) + 1])
  }

  function ParseLlmJson(text: string, r: Reader): Option<Json> {
    var cleaned := Trim(text, r);
    if cleaned == "" then None
    else
      match ExtractFenced(text, r)
      case Some(candidate) => Unwrapped(LoadOrRepair(candidate, r))
      case None =>
        if r.load(cleaned).Some? then Unwrapped(r.load(cleaned))
        else
          match Candidate(cleaned)
          case None => None
          case Some(candidate) => Unwrapped(r.load(Repaired(candidate)))
  }

  // ------------------------------------------------------- what is made of a parsed value

  /** A single key `result` or `output`, around an object or a list. */
  predicate Wraps(v: Json, inner: Json) {
    (v == Obj(map["result" := inner]) || v == Obj(map["output" := inner])) && (inner.Obj? || inner.Arr?)
  }

  /** Nothing for nothing, what is wrapped for a wrapper, and anything else as it is. */
  ghost predicate Delivers(answer: Option<Json>, parsed: Option<Json>) {
    match parsed
    case None => answer == None
    case Some(v) =>
      && (forall inner | Wraps(v, inner) :: answer == Some(inner))
      && ((forall inner :: !Wraps(v, inner)) ==> answer == Some(v))
  }

  lemma UnwrappedDelivers(parsed: Option<Json>)
    ensures Delivers(Unwrapped(parsed), parsed)
  {
    if parsed.Some? && parsed.value.Obj? {
      var f := parsed.value.fields;
      if f.Keys == {"result"} {
        assert f == map["result" := f["result"]];
        assert f["result"].Obj? || f["result"].Arr? ==> Wraps(parsed.value, f["result"]);
      } else if f.Keys == {"output"} {
        assert f == map["output" := f["output"]];
        assert f["output"].Obj? || f["output"].Arr? ==> Wraps(parsed.value, f["output"]);
      }
      forall inner | Wraps(parsed.value, inner) ensures Unwrapped(parsed) == Some(inner) {
        assert (map["result" := inner]).Keys == {"result"} && (map["output" := inner]).Keys == {"output"};
      }
    }
  }

  /** Two fences, one after the other. */
  predicate ClosedFenceAt(s: string, i: nat, j: nat) {
    i + 3 <= j && FenceAt(s, i) && FenceAt(s, j)
  }

  /** A text has fenced contents exactly if it has two fences. */
  lemma FencedIffTwoFences(text: string, r: Reader)
    ensures ExtractFenced(text, r).Some? <==> exists i: nat, j: nat :: ClosedFenceAt(text, i, j)
  {
    var start := FindFence(text, 0);
    if start.Some? {
      var rest := text[start.value + 3..];
      assert forall k: nat :: FenceAt(rest, k) <==> FenceAt(text, start.value + 3 + k);
      var end := FindFence(rest, 0);
      if end.Some? {
        assert ClosedFenceAt(text, start.value, start.value + 3 + end.value);
      }
      forall i: nat, j: nat | ClosedFenceAt(text, i, j) ensures end.Some? {
        assert start.value <= i;
        assert FenceAt(rest, j - (start.value + 3));
      }
    }
  }

  /** The commonest answer: without fences, and JSON as it stands. */
  lemma PlainAnswer(text: string, v: Json, r: Reader)
    requires forall i: nat, j: nat :: !ClosedFenceAt(text, i, j)
    requires Trim(text, r) != "" && r.load(Trim(text, r)) == Some(v)
    ensures Delivers(ParseLlmJson(text, r), Some(v))
  {
    FencedIffTwoFences(text, r);
    UnwrappedDelivers(Some(v));
  }

  // ----------------------------------------------------------------- trimming facts

  /** Brackets, quotes and backticks are not blank. */
  predicate Sane(r: Reader) {
    !r.blank('{') && !r.blank('}') && !r.blank('[') && !r.blank(']') && !r.blank('"') && !r.blank('`')
  }

  lemma {:induction false} TrimRightKeeps(s: string, tail: string, r: Reader)
    requires s != "" && !r.blank(s[|s| - 1])
    ensures exists rest :: rest <= tail && TrimRight(s + tail, r) == s + rest
    decreases |tail|
  {
    if tail == "" || !r.blank(tail[|tail| - 1]) {
      assert TrimRight(s + tail, r) == s + tail by { assert tail == "" ==> s + tail == s; }
    } else {
      var front := tail[..|tail| - 1];
      assert (s + tail)[..|s + tail| - 1] == s + front;
      TrimRightKeeps(s, front, r);
      var rest :| rest <= front && TrimRight(s + front, r) == s + rest;
      assert rest <= tail;
    }
  }

  predicate EndsWith(s: string, tail: string) {
    |tail| <= |s| && s[|s| - |tail|..] == tail
  }

  lemma {:induction false} TrimLeftKeeps(head: string, s: string, r: Reader)
    requires s != "" && !r.blank(s[0])
    ensures exists rest :: EndsWith(head, rest) && TrimLeft(head + s, r) == rest + s
    decreases |head|
  {
    if head == "" || !r.blank(head[0]) {
      assert EndsWith(head, head);
      assert head == "" ==> head + s == s;
      assert TrimLeft(head + s, r) == head + s;
    } else {
      assert (head + s)[1..] == head[1..] + s;
      TrimLeftKeeps(head[1..], s, r);
      var rest :| EndsWith(head[1..], rest) && TrimLeft(head[1..] + s, r) == rest + s;
      assert head[1..][|head[1..]| - |rest|..] == head[|head| - |rest|..];
      assert EndsWith(head, rest);
    }
  }

  /** Trimming takes off the ends only. */
  lemma TrimAround(head: string, body: string, tail: string, r: Reader) returns (head': string, tail': string)
    requires body != "" && !r.blank(body[0]) && !r.blank(body[|body| - 1])
    ensures EndsWith(head, head') && tail' <= tail && Trim(head + body + tail, r) == head' + body + tail'
  {
    var s := head + body;
    assert s[|s| - 1] == body[|body| - 1];
    TrimRightKeeps(s, tail, r);
    tail' :| tail' <= tail && TrimRight(s + tail, r) == s + tail';
    var core := body + tail';
    assert head + core == s + tail';
    TrimLeftKeeps(head, core, r);
    head' :| EndsWith(head, head') && TrimLeft(head + core, r) == head' + core;
    assert head' + core == head' + body + tail';
  }

  predicate AllBlank(s: string, r: Reader) {
    forall i | 0 <= i < |s| :: r.blank(s[i])
  }

  lemma {:induction false} TrimLeftBlank(head: string, s: string, r: Reader)
    requires AllBlank(head, r) && s != "" && !r.blank(s[0])
    ensures TrimLeft(head + s, r) == s
    decreases |head|
  {
    if head == "" {
      assert head + s == s;
    } else {
      assert (head + s)[1..] == head[1..] + s;
      TrimLeftBlank(head[1..], s, r);
    }
  }

  /** Blanks before, anything after: the body stays, with a prefix of what follows it. */
  lemma TrimBlankBefore(head: string, body: string, tail: string, r: Reader) returns (tail': string)
    requires AllBlank(head, r) && body != "" && !r.blank(body[0]) && !r.blank(body[|body| - 1])
    ensures tail' <= tail && Trim(head + body + tail, r) == body + tail'
  {
    var s := head + body;
    assert s[|s| - 1] == body[|body| - 1];
    TrimRightKeeps(s, tail, r);
    tail' :| tail' <= tail && TrimRight(s + tail, r) == s + tail';
    assert s + tail' == head + (body + tail');
    TrimLeftBlank(head, body + tail', r);
  }

  lemma {:induction false} AllBlankTrims(s: string, r: Reader)
    requires AllBlank(s, r)
    ensures TrimRight(s, r) == ""
  {
    if s != "" {
      AllBlankTrims(s[..|s| - 1], r);
    }
  }

  /** An answer of blanks, or none at all, is nothing. */
  lemma BlankNothing(text: string, r: Reader)
    requires AllBlank(text, r)
    ensures ParseLlmJson(text, r) == None
  {
    AllBlankTrims(text, r);
  }

  // ------------------------------------------------------------------ fenced answers

  predicate NoTicks(s: string) {
    forall i | 0 <= i < |s| :: s[i] != '`'
  }

  lemma FenceFound(before: string, after: string)
    requires NoTicks(before)
    ensures FindFence(before + FENCE + after, 0) == Some(|before|)
  {
    var s := before + FENCE + after;
    assert FenceAt(s, |before|);
    forall k | 0 <= k < |before| ensures !FenceAt(s, k) {
      assert s[k] == before[k];
    }
  }

  /** `json` in any case, or no tag at all before what does not look like one. */
  predicate TagOk(tag: string, rest: string, r: Reader) {
    (|tag| == 4 && r.tag(tag)) || (tag == "" && (|rest| < 4 || !r.tag(rest[..4])))
  }

  lemma FenceContents(before: string, tag: string, inner: string, after: string, r: Reader)
    requires NoTicks(before) && NoTicks(tag) && NoTicks(inner) && TagOk(tag, inner, r)
    ensures ExtractFenced(before + FENCE + (tag + inner) + FENCE + after, r) == Some(Trim(inner, r))
  {
    var body := tag + inner;
    var rest := body + FENCE + after;
    var text := before + FENCE + body + FENCE + after;
    assert text == before + FENCE + rest;
    FenceFound(before, rest);
    assert text[|before| + 3..] == rest;
    FenceFound(body, after);
    assert rest[..|body|] == body;
    assert tag == "" ==> body == inner;
    assert |tag| == 4 ==> body[..4] == tag && body[4..] == inner;
  }

  /** What a fenced answer is read from: text that is parsed, or else repaired. */
  lemma FencedAnswer(before: string, tag: string, inner: string, after: string, r: Reader)
    requires Sane(r) && NoTicks(before) && NoTicks(tag) && NoTicks(inner) && TagOk(tag, inner, r)
    ensures ParseLlmJson(before + FENCE + (tag + inner) + FENCE + after, r) == Unwrapped(
              if r.load(Trim(inner, r)).Some? then r.load(Trim(inner, r)) else r.load(Repaired(Trim(inner, r))))
  {
    var text := before + FENCE + (tag + inner) + FENCE + after;
    FenceContents(before, tag, inner, after, r);
    var core := FENCE + (tag + inner) + FENCE;
    assert text == before + core + after;
    var head, tail := TrimAround(before, core, after, r);
  }

  /** A complete fenced document is what is parsed, whatever surrounds the fence. */
  lemma FencedDocument(before: string, tag: string, lead: string, n: Node, trail: string, after: string, r: Reader)
    requires Sane(r) && NodeOk(n) && n.Container?
    requires NoTicks(before) && NoTicks(tag) && NoTicks(lead + Print(n) + trail) && TagOk(tag, lead + Print(n) + trail, r)
    requires AllBlank(lead, r) && AllBlank(trail, r)
    ensures ParseLlmJson(before + FENCE + (tag + (lead + Print(n) + trail)) + FENCE + after, r) == Unwrapped(r.load(Print(n)))
  {
    FencedAnswer(before, tag, lead + Print(n) + trail, after, r);
    RepairKeepsComplete(n);
    TrimDocument(lead, n, trail, r);
  }

  lemma {:induction false} TrimRightBlank(s: string, tail: string, r: Reader)
    requires AllBlank(tail, r) && s != "" && !r.blank(s[|s| - 1])
    ensures TrimRight(s + tail, r) == s
    decreases |tail|
  {
    if tail == "" {
      assert s + tail == s;
    } else {
      assert (s + tail)[..|s + tail| - 1] == s + tail[..|tail| - 1];
      TrimRightBlank(s, tail[..|tail| - 1], r);
    }
  }

  lemma TrimDocument(lead: string, n: Node, trail: string, r: Reader)
    requires Sane(r) && NodeOk(n) && n.Container? && AllBlank(lead, r) && AllBlank(trail, r)
    ensures Trim(lead + Print(n) + trail, r) == Print(n)
  {
    ContainerEnds(n, r);
    var s := lead + Print(n);
    assert s[|s| - 1] == Print(n)[|Print(n)| - 1];
    TrimRightBlank(s, trail, r);
    TrimLeftBlank(lead, Print(n), r);
  }

  lemma ContainerEnds(n: Node, r: Reader)
    requires Sane(r) && NodeOk(n) && n.Container?
    ensures Print(n) != "" && !r.blank(Print(n)[0]) && !r.blank(Print(n)[|Print(n)| - 1])
  {
    assert Print(n)[0] == n.opening && Print(n)[|Print(n)| - 1] == CloserOf(n.opening);
  }

  /** A fenced document cut after a container, with any tail of stripped characters: if the
      parser refuses it as it stands, the document truncated there is what is parsed. */
  lemma FencedCutDocument(before: string, tag: string, lead: string, fs: seq<Frame>, n: Node, tail: string,
                          after: string, r: Reader)
    requires Sane(r) && FramesOk(fs) && fs != [] && NodeOk(n) && n.Container? && AllDangling(tail)
    requires var inner := lead + (OpenText(fs) + Print(n)) + tail;
      NoTicks(before) && NoTicks(tag) && NoTicks(inner) && TagOk(tag, inner, r)
    requires AllBlank(lead, r) && forall rest :: rest <= tail ==> r.load(OpenText(fs) + Print(n) + rest).None?
    ensures ParseLlmJson(before + FENCE + (tag + (lead + (OpenText(fs) + Print(n)) + tail)) + FENCE + after, r)
         == Unwrapped(r.load(Print(Plug(fs, n))))
  {
    var cut := OpenText(fs) + Print(n);
    FencedAnswer(before, tag, lead + cut + tail, after, r);
    OpenTextStarts(fs);
    ContainerEnds(n, r);
    assert cut[0] == fs[0].opening && cut[|cut| - 1] == Print(n)[|Print(n)| - 1];
    assert FrameOk(fs[0]);
    var rest := TrimBlankBefore(lead, cut, tail, r);
    RepairOfCutAfterValue(fs, n, rest);
  }

  lemma {:induction false} OpenTextStarts(fs: seq<Frame>)
    requires fs != []
    ensures OpenText(fs) != [] && OpenText(fs)[0] == fs[0].opening
  {
    if |fs| > 1 {
      OpenTextStarts(fs[..|fs| - 1]);
    }
  }

  // ---------------------------------------------------------------- unfenced answers

  lemma CandidateBetween(before: string, body: string, after: string)
    requires '{' !in before && body != [] && body[0] == '{'
    requires body[|body| - 1] in "]}" || (after == "" && forall k | 0 <= k < |body| :: body[k] !in "]}")
    requires forall k | 0 <= k < |after| :: after[k] !in "]}"
    ensures Candidate(before + body + after) == Some(body)
  {
    var s := before + body + after;
    assert s[|before|] == '{';
    assert IndexOf(s, 0) == |before|;
    var rest := s[|before|..];
    assert rest == body + after;
    if body[|body| - 1] in "]}" {
      assert rest[|body| - 1] == body[|body| - 1];
      assert LastCloser(rest) == |body| - 1;
      assert rest[..|body|] == body;
    } else {
      assert rest == body && LastCloser(rest) == -1;
    }
  }

  /** What is read from prose around a text from its first brace to its last closer. */
  lemma ProseAround(before: string, body: string, after: string, r: Reader)
    requires Sane(r) && '{' !in before && body != [] && body[0] == '{' && body[|body| - 1] in "]}"
    requires forall k | 0 <= k < |after| :: after[k] !in "]}"
    requires ExtractFenced(before + body + after, r).None? && r.load(Trim(before + body + after, r)).None?
    ensures ParseLlmJson(before + body + after, r) == Unwrapped(r.load(Repaired(body)))
  {
    var head, tail := TrimAround(before, body, after, r);
    forall i | 0 <= i < |head| ensures head[i] != '{' {
      assert head[i] == before[|before| - |head| + i];
    }
    forall k | 0 <= k < |tail| ensures tail[k] !in "]}" {
      assert tail[k] == after[k];
    }
    CandidateBetween(head, body, tail);
  }

  /** From a first brace that nothing closes, the whole rest is repaired. */
  lemma ProseUnclosed(before: string, body: string, r: Reader)
    requires Sane(r) && '{' !in before && body != [] && body[0] == '{' && !r.blank(body[|body| - 1])
    requires forall k | 0 <= k < |body| :: body[k] !in "]}"
    requires ExtractFenced(before + body, r).None? && r.load(Trim(before + body, r)).None?
    ensures ParseLlmJson(before + body, r) == Unwrapped(r.load(Repaired(body)))
  {
    assert before + body + "" == before + body;
    var head, tail := TrimAround(before, body, "", r);
    forall i | 0 <= i < |head| ensures head[i] != '{' {
      assert head[i] == before[|before| - |head| + i];
    }
    CandidateBetween(head, body, "");
    assert head + body + "" == head + body + tail;
  }

  lemma {:induction false} TrimRightWithin(s: string, r: Reader)
    ensures TrimRight(s, r) <= s
  {
    if s != "" && r.blank(s[|s| - 1]) {
      TrimRightWithin(s[..|s| - 1], r);
    }
  }

  lemma {:induction false} TrimLeftWithin(s: string, r: Reader)
    ensures EndsWith(s, TrimLeft(s, r))
  {
    if s != "" && r.blank(s[0]) {
      TrimLeftWithin(s[1..], r);
      var rest := TrimLeft(s[1..], r);
      assert s[1..][|s[1..]| - |rest|..] == s[|s| - |rest|..];
    }
  }

  /** Without a brace there is nothing to repair. */
  lemma NoBraceNothing(text: string, r: Reader)
    requires '{' !in text && ExtractFenced(text, r).None? && r.load(Trim(text, r)).None?
    ensures ParseLlmJson(text, r) == None
  {
    var right := TrimRight(text, r);
    TrimRightWithin(text, r);
    TrimLeftWithin(right, r);
    var cleaned := Trim(text, r);
    forall k | 0 <= k < |cleaned| ensures cleaned[k] != '{' {
      assert cleaned[k] == right[|right| - |cleaned| + k] == text[|right| - |cleaned| + k];
    }
  }

  /** A complete object inside prose is what is parsed. */
  lemma ProseAroundObject(before: string, n: Node, after: string, r: Reader)
    requires Sane(r) && NodeOk(n) && n.Container? && n.opening == '{'
    requires '{' !in before && forall k | 0 <= k < |after| :: after[k] !in "]}"
    requires ExtractFenced(before + Print(n) + after, r).None? && r.load(Trim(before + Print(n) + after, r)).None?
    ensures ParseLlmJson(before + Print(n) + after, r) == Unwrapped(r.load(Print(n)))
  {
    assert Print(n)[0] == '{' && Print(n)[|Print(n)| - 1] == '}';
    ProseAround(before, Print(n), after, r);
    RepairKeepsComplete(n);
  }

  /** An object cut off inside prose, the last closer being that of the container `n`:
      everything up to it survives, whatever was written after it is lost. */
  lemma ProseAroundCutObject(before: string, fs: seq<Frame>, n: Node, after: string, r: Reader)
    requires Sane(r) && FramesOk(fs) && fs != [] && fs[0].opening == '{' && NodeOk(n) && n.Container?
    requires '{' !in before && forall k | 0 <= k < |after| :: after[k] !in "]}"
    requires var text := before + (OpenText(fs) + Print(n)) + after;
      ExtractFenced(text, r).None? && r.load(Trim(text, r)).None?
    ensures ParseLlmJson(before + (OpenText(fs) + Print(n)) + after, r) == Unwrapped(r.load(Print(Plug(fs, n))))
  {
    var cut := OpenText(fs) + Print(n);
    OpenTextStarts(fs);
    assert cut[0] == '{';
    assert cut[|cut| - 1] == Print(n)[|Print(n)| - 1] == CloserOf(n.opening);
    ProseAround(before, cut, after, r);
    assert cut + "" == cut;
    RepairOfCutAfterValue(fs, n, "");
  }

  /** A fence that is never closed is no fence: an answer without two fences is read as prose. */
  lemma UnclosedFence(before: string, after: string, r: Reader)
    requires NoTicks(before) && NoTicks(after)
    ensures ExtractFenced(before + FENCE + after, r).None?
  {
    FenceFound(before, after);
    assert (before + FENCE + after)[|before| + 3..] == after;
    assert forall k: nat :: !FenceAt(after, k);
  }
}
