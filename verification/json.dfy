/** `JSON.stringify` restricted to the values the client serialises: integers
    and (nested) arrays of them, as in the run-once durations `t` and the
    program tuple `v`. The parser is the reference that shows the rendering
    loses nothing. */
module Json {
  import opened Wrappers
  import opened Decimal

  datatype JsonValue = JNum(n: int) | JArray(items: seq<JsonValue>)

  /** `JSON.stringify(v)`: no spaces, elements separated by ",". */
  function Stringify(v: JsonValue): (r: string)
    ensures |r| > 0
    ensures r[0] == '[' || r[0] == '-' || IsDigit(r[0])
  {
    match v
    case JNum(n) => IntToDecimal(n)
    case JArray(items) => "[" + StringifyItems(items) + "]"
  }

  /** The elements of an array, comma separated. */
  function StringifyItems(items: seq<JsonValue>): (r: string)
    ensures |items| > 0 ==> |r| > 0 && (r[0] == '[' || r[0] == '-' || IsDigit(r[0]))
  {
    if |items| == 0 then ""
    else if |items| == 1 then Stringify(items[0])
    else Stringify(items[0]) + "," + StringifyItems(items[1..])
  }

  /** An array of plain integers, as `JSON.stringify(number[])` renders it. */
  function IntArray(xs: seq<int>): (v: JsonValue)
    ensures v.JArray? && |v.items| == |xs|
    ensures forall i :: 0 <= i < |xs| ==> v.items[i] == JNum(xs[i])
  {
    JArray(seq(|xs|, i requires 0 <= i < |xs| => JNum(xs[i])))
  }

  /** The integers of an array of plain integers; fails on anything else. */
  function AsIntArray(v: JsonValue): (r: Option<seq<int>>)
    ensures r.Some? ==> IntArray(r.value) == v
  {
    if v.JArray? && forall i :: 0 <= i < |v.items| ==> v.items[i].JNum? then
      var xs := seq(|v.items|, i requires 0 <= i < |v.items| => v.items[i].n);
      assert IntArray(xs).items == v.items;
      Some(xs)
    else None
  }

  lemma IntArrayRoundTrip(xs: seq<int>)
    ensures AsIntArray(IntArray(xs)) == Some(xs)
  {
    var v := IntArray(xs);
    assert forall i :: 0 <= i < |v.items| ==> v.items[i].JNum?;
    var ys := seq(|v.items|, i requires 0 <= i < |v.items| => v.items[i].n);
    assert ys == xs;
  }

  /** Reads one value from the front of `s`; returns it with the unread rest. */
  function ParseValue(s: string): (r: Option<(JsonValue, string)>)
    ensures r.Some? ==> |r.value.1| < |s|
    decreases |s|, 0
  {
    if |s| > 0 && s[0] == '[' then
      if |s| > 1 && s[1] == ']' then Some((JArray([]), s[2..]))
      else
        match ParseItems(s[1..])
        case Some((items, rest)) => Some((JArray(items), rest))
        case None => None
    else
      match ParseIntPrefix(s)
      case Some((n, rest)) => Some((JNum(n), rest))
      case None => None
  }

  /** Reads a non-empty comma separated list of values up to and including
      the closing "]". */
  function ParseItems(s: string): (r: Option<(seq<JsonValue>, string)>)
    ensures r.Some? ==> |r.value.0| > 0 && |r.value.1| < |s|
    decreases |s|, 1
  {
    match ParseValue(s)
    case None => None
    case Some((v, rest)) =>
      if |rest| > 0 && rest[0] == ',' then
        match ParseItems(rest[1..])
        case Some((vs, rest')) => Some(([v] + vs, rest'))
        case None => None
      else if |rest| > 0 && rest[0] == ']' then Some(([v], rest[1..]))
      else None
  }

  /** Reads a whole string as one value. */
  function Parse(s: string): Option<JsonValue>
  {
    match ParseValue(s)
    case Some((v, rest)) => if |rest| == 0 then Some(v) else None
    case None => None
  }

  lemma {:induction false} ParseValueStringify(v: JsonValue, rest: string)
    requires |rest| == 0 || rest[0] == ',' || rest[0] == ']'
    ensures ParseValue(Stringify(v) + rest) == Some((v, rest))
    decreases v, 2
  {
    match v
    case JNum(n) =>
      ParseIntPrefixRoundTrip(n, rest);
    case JArray(items) =>
      ParseArrayStringify(v, rest);
  }

  /** An array is its bracketed elements. */
  lemma {:induction false} ParseArrayStringify(v: JsonValue, rest: string)
    requires v.JArray?
    ensures ParseValue(Stringify(v) + rest) == Some((v, rest))
    decreases v, 1
  {
    var s := Stringify(v) + rest;
    if |v.items| == 0 {
      assert StringifyItems(v.items) == "";
      assert s == "[]" + rest;
      assert s[2..] == rest;
    } else {
      var inner := StringifyItems(v.items);
      assert s[1..] == inner + "]" + rest;
      assert s[1] == inner[0];
      ParseItemsStringify(v.items, rest);
    }
  }

  lemma {:induction false} ParseItemsStringify(items: seq<JsonValue>, rest: string)
    requires |items| > 0
    ensures ParseItems(StringifyItems(items) + "]" + rest) == Some((items, rest))
    decreases items, 1
  {
    if |items| == 1 {
      ParseLastItem(items, rest);
    } else {
      ParseNextItem(items, rest);
    }
  }

  /** The last element is followed by the closing bracket. */
  lemma {:induction false} ParseLastItem(items: seq<JsonValue>, rest: string)
    requires |items| == 1
    ensures ParseItems(StringifyItems(items) + "]" + rest) == Some((items, rest))
    decreases items, 0
  {
    var s := StringifyItems(items) + "]" + rest;
    assert s == Stringify(items[0]) + ("]" + rest);
    ParseValueStringify(items[0], "]" + rest);
    assert ("]" + rest)[1..] == rest;
    assert [items[0]] == items;
  }

  /** Any other element is followed by a comma and the remaining elements. */
  lemma {:induction false} ParseNextItem(items: seq<JsonValue>, rest: string)
    requires |items| > 1
    ensures ParseItems(StringifyItems(items) + "]" + rest) == Some((items, rest))
    decreases items, 0
  {
    var s := StringifyItems(items) + "]" + rest;
    var tail := StringifyItems(items[1..]) + "]" + rest;
    assert s == Stringify(items[0]) + ("," + tail);
    ParseValueStringify(items[0], "," + tail);
    assert ("," + tail)[1..] == tail;
    ParseItemsStringify(items[1..], rest);
    assert [items[0]] + items[1..] == items;
  }

  /** Parsing the rendering gives back the value: the serialisation is
      injective. */
  lemma ParseStringify(v: JsonValue)
    ensures Parse(Stringify(v)) == Some(v)
  {
    ParseValueStringify(v, "");
    assert Stringify(v) + "" == Stringify(v);
  }
}
