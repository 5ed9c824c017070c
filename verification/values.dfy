/** The JavaScript values the nodes handle. Objects keep their own
    enumerable properties as an ordered sequence of key/value pairs: that
    order is the order in which `for ... in`, `Object.keys` and
    `JSON.stringify` visit them, which the search-query formatter and the
    sanitiser both depend on. Numbers are integers; a Node.js `Buffer` is a
    byte sequence. */
module Values {
  import opened Text

  datatype Option<T> = None | Some(value: T)

  /** The exceptions the modelled code can raise. `Unmodelled` marks the
      few places where the model stops instead of guessing (a named
      property stored onto an array, for one). */
  datatype JsError =
    | TypeError(what: string)
    | ReferenceError(name: string)
    | SyntaxError(text: string)
    | Unmodelled(what: string)

  /** A completed evaluation: a value, or an exception that escapes. */
  datatype Result<T> = Ok(value: T) | Throw(error: JsError) {
    predicate IsFailure() { Throw? }

    function PropagateFailure<U>(): Result<U>
      requires Throw?
    {
      Throw(error)
    }

    function Extract(): T
      requires Ok?
    {
      value
    }
  }

  type Props = seq<(string, Value)>

  datatype Value =
    | Undefined
    | Null
    | Bool(b: bool)
    | Num(n: int)
    | Str(s: string)
    | Arr(elems: seq<Value>)
    | Obj(props: Props)
    | Bytes(data: seq<bv8>)

  /** `typeof v === 'object'`: true of null, arrays and buffers as well. */
  predicate IsObject(v: Value) {
    v.Null? || v.Arr? || v.Obj? || v.Bytes?
  }

  /** JavaScript truthiness (`if (v)`, `v || w`). */
  predicate Truthy(v: Value) {
    match v
    case Undefined => false
    case Null => false
    case Bool(b) => b
    case Num(n) => n != 0
    case Str(s) => s != ""
    case _ => true
  }

  /** `a || b`. */
  function Or(a: Value, b: Value): (r: Value)
    ensures Truthy(a) ==> r == a
    ensures !Truthy(a) ==> r == b
  {
    if Truthy(a) then a else b
  }

  // ---------------------------------------------------------------
  // Ordered property lists
  // ---------------------------------------------------------------

  function Keys(ps: Props): seq<string> {
    seq(|ps|, i requires 0 <= i < |ps| => ps[i].0)
  }

  predicate HasKey(ps: Props, k: string) {
    k in Keys(ps)
  }

  lemma KeysCons(ps: Props)
    requires |ps| > 0
    ensures Keys(ps) == [ps[0].0] + Keys(ps[1..])
    ensures forall k :: HasKey(ps, k) <==> (ps[0].0 == k || HasKey(ps[1..], k))
  {
    assert Keys(ps) == [ps[0].0] + Keys(ps[1..]);
  }

  /** No key occurs twice: every object the runtime builds is like this. */
  predicate UniqueKeys(ps: Props) {
    forall i, j :: 0 <= i < j < |ps| ==> ps[i].0 != ps[j].0
  }

  /** The value stored under `k` (its first occurrence). */
  function Lookup(ps: Props, k: string): (r: Option<Value>)
    ensures r.Some? <==> HasKey(ps, k)
    ensures r.Some? ==> (k, r.value) in ps
  {
    if |ps| == 0 then None
    else
      KeysCons(ps);
      if ps[0].0 == k then Some(ps[0].1) else Lookup(ps[1..], k)
  }

  /** `o[k]` on a plain object: a missing key reads as `undefined`. */
  function Field(ps: Props, k: string): Value {
    match Lookup(ps, k)
    case Some(v) => v
    case None => Undefined
  }

  /** `o[k] = v`: an existing key keeps its position and takes the new
      value; a new key is appended at the end. */
  function Put(ps: Props, k: string, v: Value): (r: Props)
    ensures Lookup(r, k) == Some(v)
    ensures forall k' :: k' != k ==> Lookup(r, k') == Lookup(ps, k')
    ensures |r| == if HasKey(ps, k) then |ps| else |ps| + 1
  {
    if |ps| == 0 then [(k, v)]
    else if ps[0].0 == k then
      KeysCons(ps);
      var r := [(k, v)] + ps[1..];
      assert r[1..] == ps[1..];
      r
    else
      var rest := Put(ps[1..], k, v);
      KeysCons(ps);
      var r := [ps[0]] + rest;
      assert r[1..] == rest;
      r
  }

  /** Assigning keeps the key order: an existing key stays where it was,
      a new one goes last. */
  lemma {:induction false} PutKeys(ps: Props, k: string, v: Value)
    ensures Keys(Put(ps, k, v)) == if HasKey(ps, k) then Keys(ps) else Keys(ps) + [k]
  {
    if |ps| == 0 {
      KeysOfCons((k, v), []);
    } else if ps[0].0 == k {
      KeysCons(ps);
      KeysOfCons((k, v), ps[1..]);
    } else {
      KeysCons(ps);
      PutKeys(ps[1..], k, v);
      var rest := Put(ps[1..], k, v);
      KeysOfCons(ps[0], rest);
      if !HasKey(ps, k) {
        assert [ps[0].0] + (Keys(ps[1..]) + [k]) == ([ps[0].0] + Keys(ps[1..])) + [k];
      }
    }
  }

  lemma KeysOfCons(x: (string, Value), rest: Props)
    ensures Keys([x] + rest) == [x.0] + Keys(rest)
  {
    assert Keys([x] + rest) == [x.0] + Keys(rest);
  }

  /** Assigning the same key twice is assigning it once, last value. */
  lemma {:induction false} PutPut(ps: Props, k: string, a: Value, b: Value)
    ensures Put(Put(ps, k, a), k, b) == Put(ps, k, b)
  {
    if |ps| > 0 && ps[0].0 != k {
      PutPut(ps[1..], k, a, b);
      var once := Put(ps[1..], k, a);
      assert Put(ps, k, a) == [ps[0]] + once;
      assert ([ps[0]] + once)[1..] == once;
    }
  }

  /** Storing back the value a key already holds changes nothing. */
  lemma {:induction false} PutSame(ps: Props, k: string)
    requires HasKey(ps, k)
    ensures Put(ps, k, Field(ps, k)) == ps
  {
    KeysCons(ps);
    if ps[0].0 != k {
      PutSame(ps[1..], k);
      assert ps == [ps[0]] + ps[1..];
    } else {
      assert ps == [(k, ps[0].1)] + ps[1..];
    }
  }

  /** `delete o[k]`: every other property keeps its value and position. */
  function Remove(ps: Props, k: string): (r: Props)
    ensures Lookup(r, k) == None
    ensures forall k' :: k' != k ==> Lookup(r, k') == Lookup(ps, k')
    ensures !HasKey(ps, k) ==> r == ps
    ensures |r| <= |ps|
  {
    if |ps| == 0 then []
    else if ps[0].0 == k then
      KeysCons(ps);
      Remove(ps[1..], k)
    else
      KeysCons(ps);
      var rest := Remove(ps[1..], k);
      var r := [ps[0]] + rest;
      assert r[1..] == rest;
      r
  }

  // ---------------------------------------------------------------
  // Property access on arbitrary values
  // ---------------------------------------------------------------

  /** A canonical array index ("0", "17"; not "017" or "").  */
  function ParseIndex(s: string): (r: Option<nat>)
    ensures r.Some? ==> NatToString(r.value) == s
    ensures r.None? ==> forall n: nat :: NatToString(n) != s
  {
    CanonicalDigitsIffRendering(s);
    if IsCanonicalDigits(s) then Some(DigitsValue(s)) else None
  }

  /** Is `k` an own index of something of length `len`? */
  predicate IsIndexBelow(k: string, len: nat) {
    var i := ParseIndex(k);
    i.Some? && i.value < len
  }

  /** `k in v`. Only own properties are modelled: names inherited from
      `Object.prototype` (`toString`, `constructor`, ...) are not. The `in`
      operator throws on every non-object. */
  function In(k: string, v: Value): (r: Result<bool>)
    ensures r.Throw? <==> (v.Null? || !IsObject(v))
    ensures v.Obj? ==> r == Ok(HasKey(v.props, k))
  {
    match v
    case Obj(ps) => Ok(HasKey(ps, k))
    case Arr(es) => Ok(k == "length" || IsIndexBelow(k, |es|))
    case Bytes(d) => Ok(k == "length" || IsIndexBelow(k, |d|))
    case Null => Throw(TypeError("Cannot use 'in' operator to search for '" + k + "' in null"))
    case _ => Throw(TypeError("Cannot use 'in' operator to search for '" + k + "'"))
  }

  /** `v[k]` (also written `v.k`). Reading a property of `null` or
      `undefined` throws; a missing property reads as `undefined`. */
  function Get(v: Value, k: string): (r: Result<Value>)
    ensures r.Throw? <==> (v.Null? || v.Undefined?)
    ensures v.Obj? ==> r == Ok(Field(v.props, k))
  {
    match v
    case Undefined => Throw(TypeError("Cannot read properties of undefined (reading '" + k + "')"))
    case Null => Throw(TypeError("Cannot read properties of null (reading '" + k + "')"))
    case Obj(ps) => Ok(Field(ps, k))
    case Arr(es) =>
      if k == "length" then Ok(Num(|es|))
      else if IsIndexBelow(k, |es|) then Ok(es[ParseIndex(k).value])
      else Ok(Undefined)
    case Bytes(d) =>
      if k == "length" then Ok(Num(|d|))
      else if IsIndexBelow(k, |d|) then Ok(Num(d[ParseIndex(k).value] as int))
      else Ok(Undefined)
    case Str(s) =>
      if k == "length" then Ok(Num(|s|))
      else if IsIndexBelow(k, |s|) then Ok(Str([s[ParseIndex(k).value]]))
      else Ok(Undefined)
    case _ => Ok(Undefined)
  }

  /** `v[k] = x` in sloppy-mode code (every caller of this function models
      a sloppy-mode file; the strict legacy file assigns nothing through
      it): on a plain object the property is set; on `null` or
      `undefined` it throws; on a string, number or boolean it is silently
      dropped. A named property stored onto an array or a buffer is not
      representable here and stops the model. */
  function Assign(v: Value, k: string, x: Value): (r: Result<Value>)
    ensures v.Obj? ==> r == Ok(Obj(Put(v.props, k, x)))
    ensures (v.Null? || v.Undefined?) ==> r.Throw? && r.error.TypeError?
    ensures !IsObject(v) && !v.Undefined? ==> r == Ok(v)
  {
    match v
    case Obj(ps) => Ok(Obj(Put(ps, k, x)))
    case Undefined => Throw(TypeError("Cannot set properties of undefined (setting '" + k + "')"))
    case Null => Throw(TypeError("Cannot set properties of null (setting '" + k + "')"))
    case Arr(_) => Throw(Unmodelled("named property stored onto an array"))
    case Bytes(_) => Throw(Unmodelled("named property stored onto a Buffer"))
    case _ => Ok(v)
  }

  /** The key/value pairs `for (var key in v)` visits, with `v[key]`. */
  function ForInEntries(v: Value): (r: Props)
    ensures v.Obj? ==> r == v.props
    ensures !IsObject(v) && !v.Str? ==> r == []
  {
    match v
    case Obj(ps) => ps
    case Arr(es) => seq(|es|, i requires 0 <= i < |es| => (NatToString(i), es[i]))
    case Bytes(d) => seq(|d|, i requires 0 <= i < |d| => (NatToString(i), Num(d[i] as int)))
    case Str(s) => seq(|s|, i requires 0 <= i < |s| => (NatToString(i), Str([s[i]])))
    case _ => []
  }

  // ---------------------------------------------------------------
  // String conversion
  // ---------------------------------------------------------------

  function Join(parts: seq<string>, sep: string): (r: string)
    ensures |parts| == 1 ==> r == parts[0]
  {
    if |parts| == 0 then ""
    else if |parts| == 1 then parts[0]
    else parts[0] + sep + Join(parts[1..], sep)
  }

  /** `String(v)`, the conversion `+` applies when one side is a string. */
  function ToJsString(v: Value): (r: string)
    ensures v.Str? ==> r == v.s
    decreases v
  {
    match v
    case Undefined => "undefined"
    case Null => "null"
    case Bool(b) => if b then "true" else "false"
    case Num(n) => IntToString(n)
    case Str(s) => s
    case Arr(es) =>
      Join(seq(|es|, i requires 0 <= i < |es| =>
        if es[i].Undefined? || es[i].Null? then "" else ToJsString(es[i])), ",")
    case Obj(_) => "[object Object]"
    case Bytes(d) => seq(|d|, i requires 0 <= i < |d| => d[i] as char)
  }

  /** Loose equality with the empty string, `v == ""`. */
  predicate LooseEqualsEmpty(v: Value) {
    match v
    case Undefined => false
    case Null => false
    case Bool(b) => !b
    case Num(n) => n == 0
    case Str(s) => s == ""
    case Arr(_) => ToJsString(v) == ""
    case Obj(_) => false
    case Bytes(d) => |d| == 0
  }

  /** Loose equality with null, `v == null`. */
  predicate LooseEqualsNull(v: Value) {
    v.Undefined? || v.Null?
  }

  /** `JSON.stringify` drops properties whose value is `undefined`. */
  function DropUndefined(ps: Props): (r: Props)
    ensures forall i :: 0 <= i < |r| ==> !r[i].1.Undefined?
    ensures forall k :: Lookup(ps, k).Some? && !Lookup(ps, k).value.Undefined? ==> Lookup(r, k) == Lookup(ps, k)
    ensures forall k :: Lookup(ps, k).None? ==> Lookup(r, k).None?
  {
    if |ps| == 0 then []
    else if ps[0].1.Undefined? then DropUndefined(ps[1..])
    else [ps[0]] + DropUndefined(ps[1..])
  }
}
