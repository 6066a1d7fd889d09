/**
 * Turning the model's loosely structured reply text into a defaulted turn
 * payload: the brace slicing, the tolerant parse and the per-member
 * defaulting that both the current hook and the older single-file app do.
 * `JSON.parse` itself is a parameter: a partial function from text to a
 * JSON value, `None` standing for a thrown `SyntaxError`.
 */
module Reply {
  import opened Wrappers
  import opened Text
  import opened Json

  /** `s.indexOf(c)`. */
  function FirstIndex(s: string, c: char): (r: int)
    ensures -1 <= r < |s|
    ensures r == -1 <==> c !in s
    ensures r >= 0 ==> s[r] == c && c !in s[..r]
  {
    if |s| == 0 then -1
    else if s[0] == c then 0
    else
      var r := FirstIndex(s[1..], c);
      assert r >= 0 ==> s[..r + 1] == [s[0]] + s[1..][..r];
      if r == -1 then -1 else r + 1
  }

  /** `s.lastIndexOf(c)`. */
  function LastIndex(s: string, c: char): (r: int)
    ensures -1 <= r < |s|
    ensures r == -1 <==> c !in s
    ensures r >= 0 ==> s[r] == c && forall j :: r < j < |s| ==> s[j] != c
  {
    if |s| == 0 then -1
    else if s[|s| - 1] == c then |s| - 1
    else
      var init := s[..|s| - 1];
      assert forall j :: 0 <= j < |init| ==> init[j] == s[j];
      LastIndex(init, c)
  }

  /** `s.slice(start, end)` for indices inside `s`: empty unless `start < end`. */
  function Slice(s: string, start: nat, end: nat): string
    requires start <= |s| && end <= |s|
  {
    if start < end then s[start..end] else ""
  }

  /**
   * The JSON candidate: from the first `{` to the last `}` inclusive, or
   * `"{}"` when either brace is missing. When every `}` comes before every
   * `{`, the slice is empty (and then fails to parse).
   */
  function Candidate(raw: string): (r: string)
    ensures ('{' !in raw || '}' !in raw) ==> r == "{}"
    ensures '{' in raw && '}' in raw ==>
      (r == "" <==> forall i, j :: 0 <= i < |raw| && 0 <= j < |raw| && raw[i] == '{' && raw[j] == '}' ==> j < i)
    ensures '{' in raw && '}' in raw && r != "" ==>
      r[0] == '{' && r[|r| - 1] == '}' &&
      exists i :: 0 <= i <= |raw| - |r| && raw[i..i + |r|] == r && '{' !in raw[..i] && '}' !in raw[i + |r|..]
  {
    var s := FirstIndex(raw, '{');
    var e := LastIndex(raw, '}');
    if s >= 0 && e >= 0 then
      Slice(raw, s, e + 1)
    else "{}"
  }

  /** One entry of `deltas`, read the way the reducer reads it. */
  datatype Delta = Delta(stat: Option<string>, amount: Option<int>, reason: Option<string>)

  /** The reply as `askStorySubjectAndDeltas` returns it. */
  datatype Reply = Reply(
    story: string,
    subject: Option<Json>,
    deltas: seq<Delta>,
    itemsAdd: seq<string>,
    itemsRemove: seq<string>,
    notes: seq<Json>,
    recommendedAction: string,
    bgm: Option<Json>,
    highlights: Json)

  /** What makes the extraction throw a `TypeError`. */
  datatype ExtractError = NullReply | NotAString(member: string) | CallFailed

  /** The payload obtained from `{}`: every member at its default. */
  const EmptyReply := Reply("", None, [], [], [], [], "", None, JObj([]))

  function StringMember(v: Json, key: string): Option<string> {
    match Get(v, key)
    case Some(JStr(s)) => Some(s)
    case _ => None
  }

  function NumberMember(v: Json, key: string): Option<int> {
    match Get(v, key)
    case Some(JNum(n)) => Some(n)
    case _ => None
  }

  /**
   * A `deltas` element: `delta` counts only when `typeof d.delta === "number"`;
   * an element that is not an object (including a falsy one) has no members.
   */
  function DecodeDelta(d: Json): (r: Delta)
    ensures r.amount.Some? <==> (Get(d, "delta").Some? && Get(d, "delta").value.JNum?)
    ensures !d.JObj? ==> r == Delta(None, None, None)
    ensures r.amount.Some? ==> Get(d, "delta") == Some(JNum(r.amount.value))
    ensures r.stat == (if Get(d, "stat").Some? && Get(d, "stat").value.JStr? then Some(Get(d, "stat").value.s) else None)
    ensures r.reason == (if Get(d, "reason").Some? && Get(d, "reason").value.JStr? then Some(Get(d, "reason").value.s) else None)
  {
    Delta(StringMember(d, "stat"), NumberMember(d, "delta"), StringMember(d, "reason"))
  }

  predicate IsArray(o: Option<Json>) {
    o.Some? && o.value.JArr?
  }

  /** `Array.isArray(v.key) ? v.key : []`. */
  function ArrayMember(v: Json, key: string): (r: seq<Json>)
    ensures !IsArray(Get(v, key)) ==> r == []
    ensures IsArray(Get(v, key)) ==> r == Get(v, key).value.elems
  {
    match Get(v, key)
    case Some(JArr(elems)) => elems
    case _ => []
  }

  /** The string elements of an array, in order. */
  function StringsOf(xs: seq<Json>): (r: seq<string>)
    ensures |r| <= |xs|
  {
    if |xs| == 0 then []
    else
      var init := StringsOf(xs[..|xs| - 1]);
      assert xs == xs[..|xs| - 1] + [xs[|xs| - 1]];
      match xs[|xs| - 1]
      case JStr(s) => init + [s]
      case _ => init
  }

  /** The string elements keep their order: the strings of two arrays joined are the strings of each, joined. */
  lemma {:induction false} StringsOfAppend(a: seq<Json>, b: seq<Json>)
    ensures StringsOf(a + b) == StringsOf(a) + StringsOf(b)
    decreases |b|
  {
    if |b| == 0 {
      assert a + b == a;
      assert StringsOf(b) == [];
    } else {
      var b0, x := b[..|b| - 1], b[|b| - 1];
      var tail := if x.JStr? then [x.s] else [];
      assert b == b0 + [x];
      assert a + b == (a + b0) + [x];
      StringsOfAppend(a, b0);
      StringsOfSnoc(a + b0, x);
      StringsOfSnoc(b0, x);
      var sa, sb0 := StringsOf(a), StringsOf(b0);
      assert StringsOf(a + b) == sa + sb0 + tail;
      assert sa + sb0 + tail == sa + (sb0 + tail);
    }
  }

  /** A text is kept exactly when the array holds it as a string. */
  lemma StringsOfMembers(xs: seq<Json>)
    ensures forall x :: x in StringsOf(xs) <==> JStr(x) in xs
  {
    StringsOfCounts(xs);
    forall x ensures x in StringsOf(xs) <==> JStr(x) in xs {
      assert x in StringsOf(xs) <==> multiset(StringsOf(xs))[x] > 0;
      assert JStr(x) in xs <==> multiset(xs)[JStr(x)] > 0;
    }
  }

  /** Appending one element appends its text when it is a string, and nothing otherwise. */
  lemma StringsOfSnoc(xs: seq<Json>, x: Json)
    ensures StringsOf(xs + [x]) == StringsOf(xs) + (if x.JStr? then [x.s] else [])
  {
    assert (xs + [x])[..|xs|] == xs;
  }

  /** Each text is kept as many times as the array holds it as a string, so no duplicate is dropped. */
  lemma {:induction false} StringsOfCounts(xs: seq<Json>)
    ensures forall x :: multiset(StringsOf(xs))[x] == multiset(xs)[JStr(x)]
  {
    if |xs| > 0 {
      var init, last := xs[..|xs| - 1], xs[|xs| - 1];
      assert xs == init + [last];
      StringsOfCounts(init);
      StringsOfSnoc(init, last);
    }
  }

  /** `v.key ?? null`. */
  function OrNull(o: Option<Json>): (r: Option<Json>)
    ensures r.None? <==> Nullish(o)
    ensures !Nullish(o) ==> r == o
  {
    if Nullish(o) then None else o
  }

  /** `(v.key ?? "").trim()`, which throws unless the member is nullish or a string. */
  function TrimmedText(v: Json, key: string): (r: Result<string, ExtractError>)
    ensures r.Ok? <==> Nullish(Get(v, key)) || Get(v, key).value.JStr?
    ensures Nullish(Get(v, key)) ==> r == Ok("")
    ensures r.Ok? && !Nullish(Get(v, key)) ==> r.value == Trim(Get(v, key).value.s)
  {
    match Get(v, key)
    case None => Ok("")
    case Some(JNull) => Ok("")
    case Some(JStr(s)) => Ok(Trim(s))
    case Some(_) => Err(NotAString(key))
  }

  /** The parsed value: the parse of the candidate of the trimmed text, or `{}` when that parse throws. */
  function Parsed(text: string, parse: string -> Option<Json>): (v: Json)
    ensures parse(Candidate(Trim(text))).None? ==> v == JObj([])
    ensures parse(Candidate(Trim(text))).Some? ==> v == parse(Candidate(Trim(text))).value
  {
    match parse(Candidate(Trim(text)))
    case None => JObj([])
    case Some(v) => v
  }

  /**
   * The payload built from a parsed value once its two text members have
   * been read: every other member defaults when missing or mistyped.
   */
  function Assemble(p: Json, story: string, recommended: string): (r: Reply)
    ensures r.story == story && r.recommendedAction == recommended
    ensures !IsArray(Get(p, "deltas")) ==> r.deltas == []
    ensures !IsArray(Get(p, "itemsAdd")) ==> r.itemsAdd == []
    ensures !IsArray(Get(p, "itemsRemove")) ==> r.itemsRemove == []
    ensures !IsArray(Get(p, "hudNotes")) ==> r.notes == []
    ensures Nullish(Get(p, "subject")) ==> r.subject.None?
    ensures Nullish(Get(p, "bgm")) ==> r.bgm.None?
    ensures Nullish(Get(p, "highlights")) ==> r.highlights == JObj([])
    ensures |r.deltas| == |ArrayMember(p, "deltas")|
    ensures forall i :: 0 <= i < |r.deltas| ==> r.deltas[i] == DecodeDelta(ArrayMember(p, "deltas")[i])
  {
    var elems := ArrayMember(p, "deltas");
    Reply(
      story,
      OrNull(Get(p, "subject")),
      seq(|elems|, i requires 0 <= i < |elems| => DecodeDelta(elems[i])),
      StringsOf(ArrayMember(p, "itemsAdd")),
      StringsOf(ArrayMember(p, "itemsRemove")),
      ArrayMember(p, "hudNotes"),
      recommended,
      OrNull(Get(p, "bgm")),
      if Nullish(Get(p, "highlights")) then JObj([]) else Get(p, "highlights").value)
  }

  /**
   * The members that are present with the right type pass through: an
   * array's string elements (all of them, in order, duplicates kept), the
   * `hudNotes` array as it is, and a non-nullish subject, bgm or highlights
   * object unchanged.
   */
  lemma AssemblePassesThrough(p: Json, story: string, recommended: string)
    ensures var r := Assemble(p, story, recommended);
      && (IsArray(Get(p, "itemsAdd")) ==> r.itemsAdd == StringsOf(Get(p, "itemsAdd").value.elems))
      && (IsArray(Get(p, "itemsRemove")) ==> r.itemsRemove == StringsOf(Get(p, "itemsRemove").value.elems))
      && (IsArray(Get(p, "hudNotes")) ==> r.notes == Get(p, "hudNotes").value.elems)
      && (!Nullish(Get(p, "subject")) ==> r.subject == Get(p, "subject"))
      && (!Nullish(Get(p, "bgm")) ==> r.bgm == Get(p, "bgm"))
      && (!Nullish(Get(p, "highlights")) ==> r.highlights == Get(p, "highlights").value)
  {
  }

  /**
   * The whole extraction. It fails only where the source throws: a parsed
   * `null` (member access on `null`), or a `story` / `recommendedAction`
   * that is neither nullish nor a string (`trim` is not a function).
   */
  function Extract(text: string, parse: string -> Option<Json>): (r: Result<Reply, ExtractError>)
    ensures var p := Parsed(text, parse);
      r.Ok? <==> !p.JNull? && (Nullish(Get(p, "story")) || Get(p, "story").value.JStr?)
                 && (Nullish(Get(p, "recommendedAction")) || Get(p, "recommendedAction").value.JStr?)
    ensures parse(Candidate(Trim(text))).None? ==> r == Ok(EmptyReply)
    ensures var p := Parsed(text, parse); r.Ok? ==>
      r.value == Assemble(p, TrimmedText(p, "story").value, TrimmedText(p, "recommendedAction").value)
    ensures var p := Parsed(text, parse); r.Ok? ==>
      && (!IsArray(Get(p, "deltas")) ==> r.value.deltas == [])
      && (!IsArray(Get(p, "itemsAdd")) ==> r.value.itemsAdd == [])
      && (!IsArray(Get(p, "itemsRemove")) ==> r.value.itemsRemove == [])
      && (!IsArray(Get(p, "hudNotes")) ==> r.value.notes == [])
      && (Nullish(Get(p, "story")) ==> r.value.story == "")
      && (Nullish(Get(p, "recommendedAction")) ==> r.value.recommendedAction == "")
      && (Nullish(Get(p, "subject")) ==> r.value.subject.None?)
      && (Nullish(Get(p, "bgm")) ==> r.value.bgm.None?)
      && (Nullish(Get(p, "highlights")) ==> r.value.highlights == JObj([]))
    ensures var p := Parsed(text, parse); r.Ok? ==>
      |r.value.deltas| == |ArrayMember(p, "deltas")| &&
      forall i :: 0 <= i < |r.value.deltas| ==> r.value.deltas[i] == DecodeDelta(ArrayMember(p, "deltas")[i])
  {
    var parsed := Parsed(text, parse);
    if parsed.JNull? then Err(NullReply)
    else
      match TrimmedText(parsed, "story")
      case Err(e) => Err(e)
      case Ok(story) =>
        match TrimmedText(parsed, "recommendedAction")
        case Err(e) => Err(e)
        case Ok(recommended) => Ok(Assemble(parsed, story, recommended))
  }

  /** A reply with no brace pair yields the all-defaults payload, given that `JSON.parse("{}")` is an empty object. */
  lemma NoBracesGivesDefaults(text: string, parse: string -> Option<Json>)
    requires '{' !in Trim(text) || '}' !in Trim(text)
    requires parse("{}") == Some(JObj([]))
    ensures Extract(text, parse) == Ok(EmptyReply)
  {
  }

  /** Braces in the wrong order slice to `""`, which `JSON.parse` rejects, so the payload is all defaults. */
  lemma MisorderedBracesGiveDefaults(text: string, parse: string -> Option<Json>)
    requires '{' in Trim(text) && '}' in Trim(text)
    requires LastIndex(Trim(text), '}') < FirstIndex(Trim(text), '{')
    requires parse("") == None
    ensures Extract(text, parse) == Ok(EmptyReply)
  {
  }
}
