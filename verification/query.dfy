/** The flat query-string vocabulary every call sends: a map from parameter
    name to a number or a string. Iteration and serialisation order are not
    modelled; a later assignment to the same name would replace an earlier
    one, which map update also does. */
module Query {
  import opened Wrappers

  datatype QVal = Num(n: int) | Str(s: string)

  type QueryMap = map<string, QVal>

  /** The TypeScript type `0 | 1`. */
  type Bit = b: int | 0 <= b <= 1

  /** `if (send) q[key] = v`: one conditional assignment of a builder. */
  function PutIf(q: QueryMap, send: bool, key: string, v: QVal): QueryMap
  {
    if send then q[key := v] else q
  }

  /** A conditional assignment leaves every other key alone. */
  lemma PutIfOther(q: QueryMap, send: bool, key: string, v: QVal, other: string)
    requires other != key
    ensures other in PutIf(q, send, key, v) <==> other in q
    ensures other in q ==> PutIf(q, send, key, v)[other] == q[other]
  {
  }

  /** Assigning a key not yet present adds one entry when it happens. */
  lemma PutIfNew(q: QueryMap, send: bool, key: string, v: QVal)
    requires key !in q
    ensures |PutIf(q, send, key, v)| == |q| + (if send then 1 else 0)
  {
  }

  /** The number sent under `key`, if a number was sent. */
  function ReadNum(q: QueryMap, key: string): (r: Option<int>)
    ensures r.Some? <==> key in q && q[key].Num?
    ensures r.Some? ==> q[key] == Num(r.value)
  {
    if key in q && q[key].Num? then Some(q[key].n) else None
  }

  /** The string sent under `key`, if a string was sent. */
  function ReadStr(q: QueryMap, key: string): (r: Option<string>)
    ensures r.Some? <==> key in q && q[key].Str?
    ensures r.Some? ==> q[key] == Str(r.value)
  {
    if key in q && q[key].Str? then Some(q[key].s) else None
  }

  /** The bit sent under `key`, if 0 or 1 was sent. */
  function ReadBit(q: QueryMap, key: string): (r: Option<Bit>)
    ensures r.Some? <==> key in q && q[key] in {Num(0), Num(1)}
    ensures r.Some? ==> q[key] == Num(r.value)
  {
    if key in q && q[key] in {Num(0), Num(1)} then Some(q[key].n) else None
  }

  /** A flag reads as set when "1" was sent and as absent otherwise. */
  function ReadFlag(q: QueryMap, key: string): (r: Option<bool>)
    ensures r == Some(true) <==> key in q && q[key] == Num(1)
    ensures r != Some(false)
  {
    if key in q && q[key] == Num(1) then Some(true) else None
  }
}
