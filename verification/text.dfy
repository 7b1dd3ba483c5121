/** The three Python string operations the scraper relies on: `str.strip()`
    with no argument, `str.join`, and `str.format` with one keyword field. */
module Text {
  import opened Wrappers

  /** Python's `str.isspace()` for one character: the characters
      `str.strip()` removes when called without an argument. */
  predicate IsSpace(c: char)
  {
    || c == ' '
    || '\t' <= c <= '\r'
    || '\U{1C}' <= c <= '\U{1F}'
    || c == '\U{85}'
    || c == '\U{A0}'
    || c == '\U{1680}'
    || '\U{2000}' <= c <= '\U{200A}'
    || c == '\U{2028}'
    || c == '\U{2029}'
    || c == '\U{202F}'
    || c == '\U{205F}'
    || c == '\U{3000}'
  }

  /** Every character of `s[lo..hi]` is whitespace. */
  predicate SpaceBetween(s: string, lo: int, hi: int)
    requires 0 <= lo <= hi <= |s|
  {
    forall m :: lo <= m < hi ==> IsSpace(s[m])
  }

  /** Neither starts nor ends with whitespace. */
  predicate Trimmed(s: string)
  {
    |s| == 0 || (!IsSpace(s[0]) && !IsSpace(s[|s| - 1]))
  }

  /** `s[i..j]` is `s` with a run of whitespace cut from each end and no
      whitespace left at either end of what remains. */
  predicate TrimsTo(s: string, i: int, j: int)
  {
    && 0 <= i <= j <= |s|
    && SpaceBetween(s, 0, i)
    && SpaceBetween(s, j, |s|)
    && (i == j || (!IsSpace(s[i]) && !IsSpace(s[j - 1])))
  }

  /** The first position at or after `i` that holds no whitespace, or `|s|`. */
  function SkipSpace(s: string, i: nat): (k: nat)
    requires i <= |s|
    ensures i <= k <= |s| && SpaceBetween(s, i, k)
    ensures k < |s| ==> !IsSpace(s[k])
    decreases |s| - i
  {
    if i < |s| && IsSpace(s[i]) then SkipSpace(s, i + 1) else i
  }

  /** The end of `s[lo..j]` once trailing whitespace is dropped from it. */
  function BackSpace(s: string, lo: nat, j: nat): (k: nat)
    requires lo <= j <= |s|
    ensures lo <= k <= j && SpaceBetween(s, k, j)
    ensures k > lo ==> !IsSpace(s[k - 1])
    decreases j
  {
    if j > lo && IsSpace(s[j - 1]) then BackSpace(s, lo, j - 1) else j
  }

  /** Python's `s.strip()`: scan whitespace away from the front, then from the
      back of what is left, and keep the middle. */
  function Strip(s: string): (r: string)
    ensures |r| <= |s|
    ensures Trimmed(r)
  {
    var i := SkipSpace(s, 0);
    var j := BackSpace(s, i, |s|);
    s[i..j]
  }

  /** The stripped text is a slice of `s` whose cut-off ends are whitespace. */
  lemma StripCuts(s: string)
    ensures exists i, j :: TrimsTo(s, i, j) && Strip(s) == s[i..j]
  {
    var i := SkipSpace(s, 0);
    var j := BackSpace(s, i, |s|);
    assert j < |s| ==> IsSpace(s[j]);
    if i < j {
      assert s[i] == s[i..j][0];
    } else {
      assert SpaceBetween(s, 0, |s|);
    }
    assert TrimsTo(s, i, j);
  }

  /** Conversely a string has only one trimmed core: any cut of whitespace
      from both ends that leaves no whitespace at either end gives `Strip(s)`. */
  lemma StripUnique(s: string, i: int, j: int)
    requires TrimsTo(s, i, j)
    ensures Strip(s) == s[i..j]
  {
  }

  /** Python's `sep.join(parts)`. */
  function Join(sep: string, parts: seq<string>): string
  {
    if |parts| == 0 then ""
    else if |parts| == 1 then parts[0]
    else parts[0] + sep + Join(sep, parts[1..])
  }

  /** Joining one more part appends the separator and that part, so a join of
      several parts never ends with the separator unless its last part does. */
  lemma {:induction false} JoinSnoc(sep: string, parts: seq<string>, last: string)
    requires |parts| > 0
    ensures Join(sep, parts + [last]) == Join(sep, parts) + sep + last
  {
    if |parts| == 1 {
      assert parts + [last] == [parts[0], last];
    } else {
      assert (parts + [last])[1..] == parts[1..] + [last];
      JoinSnoc(sep, parts[1..], last);
    }
  }

  /** The failures `str.format` reports for a malformed template or a field
      it was given no value for. */
  datatype FormatError =
    | UnmatchedOpen       // a `{` with no `}` after it
    | UnmatchedClose      // a `}` that neither closes a field nor is doubled
    | UnexpectedOpen      // a `{` inside a field name
    | UnknownField(name: string)

  /** The position of the first `}` at or after `from`, or `|s|` if there is none. */
  function CloseAt(s: string, from: nat): (k: nat)
    requires from <= |s|
    ensures from <= k <= |s|
    ensures k < |s| ==> s[k] == '}'
    ensures forall m :: from <= m < k ==> s[m] != '}'
    decreases |s| - from
  {
    if from == |s| || s[from] == '}' then from else CloseAt(s, from + 1)
  }

  function Prepend(prefix: string, r: Result<string, FormatError>): Result<string, FormatError>
  {
    match r
    case Ok(s) => Ok(prefix + s)
    case Err(e) => Err(e)
  }

  /** Python's `template.format(name=value)` for templates whose fields are
      plain names: `{{` and `}}` stand for single braces, `{name}` for
      `value`, and any other field or stray brace is an error. */
  function Format(template: string, name: string, value: string): Result<string, FormatError>
    decreases |template|
  {
    if |template| == 0 then Ok("")
    else if template[0] == '{' then
      if |template| > 1 && template[1] == '{' then Prepend("{", Format(template[2..], name, value))
      else
        var k := CloseAt(template, 1);
        if k == |template| then Err(UnmatchedOpen)
        else if '{' in template[1..k] then Err(UnexpectedOpen)
        else if template[1..k] != name then Err(UnknownField(template[1..k]))
        else Prepend(value, Format(template[k + 1..], name, value))
    else if template[0] == '}' then
      if |template| > 1 && template[1] == '}' then Prepend("}", Format(template[2..], name, value))
      else Err(UnmatchedClose)
    else Prepend(template[..1], Format(template[1..], name, value))
  }

  /** `s` has neither `{` nor `}` in it. */
  predicate BraceFree(s: string)
  {
    '{' !in s && '}' !in s
  }

  /** Text without braces is copied through unchanged. */
  lemma {:induction false} FormatLiteral(literal: string, rest: string, name: string, value: string)
    requires BraceFree(literal)
    ensures Format(literal + rest, name, value) == Prepend(literal, Format(rest, name, value))
  {
    if |literal| == 0 {
      assert literal + rest == rest;
      match Format(rest, name, value)
      case Ok(v) => assert literal + v == v;
      case Err(_) =>
    } else {
      var t := literal + rest;
      assert t[0] == literal[0] && t[..1] == literal[..1] && t[1..] == literal[1..] + rest;
      assert Format(t, name, value) == Prepend(literal[..1], Format(t[1..], name, value));
      FormatLiteral(literal[1..], rest, name, value);
      match Format(rest, name, value)
      case Ok(v) =>
        assert literal[..1] + (literal[1..] + v) == literal + v;
      case Err(_) =>
    }
  }

  /** A template with one `{name}` field between two brace-free texts formats
      to the first text, then `value` verbatim, then the second text. */
  lemma FormatOneField(before: string, name: string, after: string, value: string)
    requires BraceFree(before) && BraceFree(name) && BraceFree(after)
    ensures Format(before + "{" + name + "}" + after, name, value) == Ok(before + value + after)
  {
    var field := "{" + name + "}" + after;
    assert before + "{" + name + "}" + after == before + field;
    FormatLiteral(before, field, name, value);
    FormatLiteral(after, "", name, value);
    assert after + "" == after;
    assert Format(after, name, value) == Ok(after);
    var k := CloseAt(field, 1);
    assert field[|name| + 1] == '}';
    assert forall m :: 1 <= m < |name| + 1 ==> field[m] == name[m - 1];
    assert k == |name| + 1;
    assert field[1..k] == name;
    assert field[k + 1..] == after;
    assert '{' !in name;
    assert Format(field, name, value) == Prepend(value, Format(after, name, value));
    assert before + (value + after) == before + value + after;
  }
}
