/**
 * `_extract_json_object`, which both LLM clients define identically: parse
 * the stripped text whole, and failing that parse the span that the regular
 * expression `\{.*\}` (with DOTALL) finds.
 */
module JsonExtract {
  import opened Wrappers
  import opened PyText
  import opened JsonValue

  /** The index of the first `c` in `s`. */
  function FirstIndex(s: string, c: char): (r: Option<nat>)
    ensures r.None? <==> c !in s
    ensures r.Some? ==> r.value < |s| && s[r.value] == c
    ensures r.Some? ==> forall k :: 0 <= k < r.value ==> s[k] != c
  {
    if s == [] then None
    else if s[0] == c then Some(0)
    else match FirstIndex(s[1..], c)
      case None => None
      case Some(i) => Some(i + 1)
  }

  /** The index of the last `c` in `s`. */
  function LastIndex(s: string, c: char): (r: Option<nat>)
    ensures r.None? <==> c !in s
    ensures r.Some? ==> r.value < |s| && s[r.value] == c
    ensures r.Some? ==> forall k :: r.value < k < |s| ==> s[k] != c
  {
    if s == [] then None
    else if s[|s| - 1] == c then Some(|s| - 1)
    else LastIndex(s[..|s| - 1], c)
  }

  /**
   * `s[i..j+1]` is a match of `\{.*\}` under DOTALL: it opens with `{` at `i`
   * and closes with `}` at `j > i`, and `.*` takes anything in between.
   */
  ghost predicate RegexMatch(s: string, i: int, j: int) {
    0 <= i < j < |s| && s[i] == '{' && s[j] == '}'
  }

  /**
   * What `re.search(r"\{.*\}", s, flags=re.DOTALL)` selects: the leftmost
   * start and, from there, the longest (greedy) match; `None` when there is
   * no match. The span runs from the first `{` to the last `}`.
   */
  function BraceSpan(s: string): (r: Option<(nat, nat)>)
    ensures r.Some? ==> r.value.0 < r.value.1 < |s|
    ensures r.None? <==> forall i, j :: !RegexMatch(s, i, j)
    ensures r.Some? ==> RegexMatch(s, r.value.0, r.value.1)
    ensures r.Some? ==> forall i, j :: RegexMatch(s, i, j) ==> r.value.0 <= i && j <= r.value.1
  {
    match (FirstIndex(s, '{'), LastIndex(s, '}'))
    case (Some(i), Some(j)) =>
      if i < j then
        assert RegexMatch(s, i, j);
        Some((i, j))
      else None
    case _ => None
  }

  /** The text `re.search(r"\{.*\}", t, re.S)` matches, if any: from the first `{` to the last `}`. */
  function BraceMatch(t: string): (m: Option<string>)
    ensures m.None? <==> BraceSpan(t).None?
    ensures m.Some? ==> |m.value| >= 2 && m.value[0] == '{' && m.value[|m.value| - 1] == '}'
  {
    match BraceSpan(t)
    case None => None
    case Some((i, j)) => Some(t[i..j + 1])
  }

  /**
   * `_extract_json_object(s)`: `None` for blank text; the decoded whole text
   * when it decodes (whatever JSON type it is); otherwise the decoded brace
   * span, or `None` when there is no span or the span does not decode.
   */
  function ExtractJsonObject(s: string, loads: string -> Option<Json>): (r: Option<Json>)
    ensures Strip(s) == [] ==> r.None?
    ensures Strip(s) != [] && loads(Strip(s)).Some? ==> r == loads(Strip(s))
    ensures Strip(s) != [] && loads(Strip(s)).None? && BraceMatch(Strip(s)).None? ==> r.None?
    ensures Strip(s) != [] && loads(Strip(s)).None? && BraceMatch(Strip(s)).Some? ==>
      r == loads(BraceMatch(Strip(s)).value)
  {
    var t := Strip(s);
    if t == [] then None
    else match loads(t)
      case Some(v) => Some(v)
      case None =>
        match BraceMatch(t)
        case None => None
        case Some(m) => loads(m)
  }

  /**
   * Tolerance for prose around the object: when the stripped text is
   * `prefix + obj + suffix`, with no `{` in the prefix, no `}` in the suffix,
   * and `obj` of the form `{...}`, and the whole text does not decode, the
   * result is exactly the decoding of `obj`.
   */
  lemma EmbeddedObjectRecovered(s: string, prefix: string, obj: string, suffix: string,
                                loads: string -> Option<Json>)
    requires Strip(s) == prefix + obj + suffix
    requires '{' !in prefix && '}' !in suffix
    requires |obj| >= 2 && obj[0] == '{' && obj[|obj| - 1] == '}'
    requires loads(Strip(s)).None?
    ensures ExtractJsonObject(s, loads) == loads(obj)
  {
    var t := Strip(s);
    var i, j := |prefix|, |prefix| + |obj| - 1;
    assert RegexMatch(t, i, j);
    assert t[i..j + 1] == obj;
    assert BraceMatch(t) == Some(obj);
  }
}
