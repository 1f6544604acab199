/**
 * The few JavaScript value semantics the gallery tool depends on: truthiness,
 * what a text `<input>` shows when a possibly-missing value is assigned to it, loose
 * equality against a string, and the `/\.mp4$/` test.
 */
module Js {

  datatype Option<+T> = None | Some(value: T)

  /** A property that holds a string, or `null`, or is missing (`undefined`). */
  datatype NullableString = Undefined | Null | Str(s: string)

  /**
   * A property of the persisted data object whose type the tool does not
   * control (a tune flag read back from storage). Numbers and objects are
   * only ever tested for truthiness, so they are kept as `OtherValue`.
   */
  datatype JsValue =
    | UndefinedValue
    | NullValue
    | BoolValue(b: bool)
    | StringValue(s: string)
    | OtherValue(truthy: bool)

  /** `if (v)` on a string-or-nullish value: only a non-empty string is truthy. */
  predicate Truthy(v: NullableString)
  {
    v.Str? && v.s != ""
  }

  /** `if (v)` / `!v` on an arbitrary stored value. */
  predicate IsTruthy(v: JsValue)
  {
    match v
    case UndefinedValue => false
    case NullValue => false
    case BoolValue(b) => b
    case StringValue(s) => s != ""
    case OtherValue(t) => t
  }

  /** A carriage return or a line feed. */
  predicate IsLineBreak(c: char)
  {
    c == '\n' || c == '\r'
  }

  /** No character of `s` is a line break. */
  predicate NoLineBreaks(s: string)
  {
    forall i :: 0 <= i < |s| ==> !IsLineBreak(s[i])
  }

  /** Every character of `s` is a line break. */
  predicate OnlyLineBreaks(s: string)
  {
    forall i :: 0 <= i < |s| ==> IsLineBreak(s[i])
  }

  /**
   * The value sanitization of a text `<input>`: every carriage return and
   * line feed is removed, every other character kept in order.
   */
  function StripLineBreaks(s: string): (t: string)
    ensures |t| <= |s|
    ensures NoLineBreaks(t)
    ensures NoLineBreaks(s) ==> t == s
    ensures t == "" <==> OnlyLineBreaks(s)
  {
    if s == [] then []
    else (if IsLineBreak(s[0]) then [] else [s[0]]) + StripLineBreaks(s[1..])
  }

  /** Sanitizing keeps every character other than a line break as often as it occurs. */
  lemma {:induction false} StripLineBreaksKeeps(s: string, c: char)
    requires !IsLineBreak(c)
    ensures multiset(StripLineBreaks(s))[c] == multiset(s)[c]
  {
    if s != [] {
      var head: string := if IsLineBreak(s[0]) then [] else [s[0]];
      StripLineBreaksKeeps(s[1..], c);
      assert s == [s[0]] + s[1..];
      assert multiset(s) == multiset([s[0]]) + multiset(s[1..]);
      assert multiset(head + StripLineBreaks(s[1..])) == multiset(head) + multiset(StripLineBreaks(s[1..]));
    }
  }

  /** Sanitizing a string one character longer appends that character unless it is a line break: order is kept. */
  lemma {:induction false} StripLineBreaksSnoc(s: string, c: char)
    ensures StripLineBreaks(s + [c]) == StripLineBreaks(s) + if IsLineBreak(c) then [] else [c]
  {
    if s == [] {
      assert [] + [c] == [c];
    } else {
      var head: string := if IsLineBreak(s[0]) then [] else [s[0]];
      var tail: string := if IsLineBreak(c) then [] else [c];
      assert (s + [c])[0] == s[0] && (s + [c])[1..] == s[1..] + [c];
      StripLineBreaksSnoc(s[1..], c);
      assert head + (StripLineBreaks(s[1..]) + tail) == (head + StripLineBreaks(s[1..])) + tail;
    }
  }

  /**
   * The text a text `<input>` holds after `input.value = v`: `null` becomes
   * the empty string, `undefined` is stringified, and a string is sanitized.
   */
  function InputText(v: NullableString): (t: string)
    ensures NoLineBreaks(t)
    ensures v.Str? ==> t == StripLineBreaks(v.s)
    ensures t == "" <==> v == Null || (v.Str? && OnlyLineBreaks(v.s))
    ensures v == Undefined ==> t == "undefined"
  {
    match v
    case Undefined => "undefined"
    case Null => ""
    case Str(s) => StripLineBreaks(s)
  }

  /** `text == v` with `text` a string: equal strings only, never a nullish value. */
  predicate LooseEquals(text: string, v: NullableString): (r: bool)
    ensures r ==> v.Str?
    ensures v.Str? ==> (r <==> v == Str(text))
  {
    v == Str(text)
  }

  /** A missing key of a plain object reads as `undefined`. */
  function Lookup(props: map<string, JsValue>, key: string): JsValue
  {
    if key in props then props[key] else UndefinedValue
  }

  /**
   * The tune value computed from a stored property: `typeof v !== 'undefined'
   * ? v === true || v === 'true' : false` (strict equality, so only the
   * boolean and the exact string count).
   */
  function TuneValue(v: JsValue): (on: bool)
    ensures on <==> v == BoolValue(true) || v == StringValue("true")
    ensures on ==> IsTruthy(v)
  {
    if v.UndefinedValue? then false else v == BoolValue(true) || v == StringValue("true")
  }

  /** `/\.mp4$/.test(url)`: without the multiline flag `$` anchors at the very end. */
  predicate EndsInMp4(url: string)
  {
    |url| >= 4 && url[|url| - 4..] == ".mp4"
  }
}
