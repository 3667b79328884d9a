/** The JavaScript values the scenario files, actions and menu items are made
    of, as `JSON.parse` produces them. `Option.None` stands for `undefined`
    (a missing property). Object members are kept in JavaScript's own
    property order, which is the order `Object.entries` reports. */
module JsValue {
  import opened Wrappers
  import Decimal

  datatype Value =
    | Null
    | Bool(b: bool)
    | Num(n: int)
    | Str(s: string)
    | Arr(items: seq<Value>)
    | Obj(fields: seq<(string, Value)>)

  /** The keys of a JavaScript object are distinct. */
  predicate DistinctKeys(fields: seq<(string, Value)>) {
    forall i, j :: 0 <= i < j < |fields| ==> fields[i].0 != fields[j].0
  }

  /** JavaScript truthiness of a possibly undefined value. */
  predicate Truthy(v: Option<Value>) {
    match v
    case None => false
    case Some(Null) => false
    case Some(Bool(b)) => b
    case Some(Num(n)) => n != 0
    case Some(Str(s)) => s != ""
    case Some(Arr(_)) => true
    case Some(Obj(_)) => true
  }

  /** `Array.isArray(v)`. */
  predicate IsArray(v: Option<Value>) {
    v.Some? && v.value.Arr?
  }

  /** `v === Str(s)`. */
  predicate IsText(v: Option<Value>, s: string) {
    v == Some(Str(s))
  }

  /** The value stored under `key` in an object's member list. */
  function Lookup(fields: seq<(string, Value)>, key: string): (r: Option<Value>)
    ensures r.None? <==> forall i :: 0 <= i < |fields| ==> fields[i].0 != key
    ensures r.Some? ==> exists i :: 0 <= i < |fields| && fields[i] == (key, r.value)
  {
    if fields == [] then None
    else if fields[0].0 == key then Some(fields[0].1)
    else Lookup(fields[1..], key)
  }

  /** Lookup in a concatenation finds the first part's member first. */
  lemma {:induction false} LookupAppend(a: seq<(string, Value)>, b: seq<(string, Value)>, key: string)
    ensures Lookup(a + b, key) == if Lookup(a, key).Some? then Lookup(a, key) else Lookup(b, key)
  {
    if a == [] {
      assert a + b == b;
    } else {
      assert (a + b)[1..] == a[1..] + b;
      LookupAppend(a[1..], b, key);
    }
  }

  /** In an object with distinct keys each member is found under its own key. */
  lemma {:induction false} LookupDistinct(fields: seq<(string, Value)>, i: nat)
    requires DistinctKeys(fields) && i < |fields|
    ensures Lookup(fields, fields[i].0) == Some(fields[i].1)
  {
    if i > 0 {
      assert fields[1..][i - 1] == fields[i];
      LookupDistinct(fields[1..], i - 1);
    }
  }

  /** A canonical array index ("0", "1", ..., "4294967294"). */
  predicate IsIndexKey(key: string) {
    key != [] && Decimal.AllDigits(key) && Decimal.NatToString(Decimal.DigitsValue(key)) == key
    && Decimal.DigitsValue(key) < 0xFFFF_FFFF
  }

  /** JavaScript's order of own properties: array-index keys first, in
      ascending numeric order, then the other keys in insertion order. */
  predicate PropertyOrder(fields: seq<(string, Value)>) {
    && DistinctKeys(fields)
    && forall i, j :: 0 <= i < j < |fields| && IsIndexKey(fields[j].0) ==>
         IsIndexKey(fields[i].0) && Decimal.DigitsValue(fields[i].0) < Decimal.DigitsValue(fields[j].0)
  }

  /** Where a new key goes: index keys before the first key that is not a
      smaller index key, all other keys at the end. */
  function InsertPosition(fields: seq<(string, Value)>, key: string): (p: nat)
    ensures p <= |fields|
    ensures !IsIndexKey(key) ==> p == |fields|
    ensures IsIndexKey(key) ==> forall i :: 0 <= i < p ==>
      IsIndexKey(fields[i].0) && Decimal.DigitsValue(fields[i].0) < Decimal.DigitsValue(key)
    ensures p < |fields| ==>
      IsIndexKey(key) && !(IsIndexKey(fields[p].0) && Decimal.DigitsValue(fields[p].0) < Decimal.DigitsValue(key))
  {
    if !IsIndexKey(key) then |fields|
    else if fields == [] then 0
    else if IsIndexKey(fields[0].0) && Decimal.DigitsValue(fields[0].0) < Decimal.DigitsValue(key)
    then
      var p := InsertPosition(fields[1..], key);
      assert forall i :: 1 <= i < |fields| ==> fields[i] == fields[1..][i - 1];
      1 + p
    else 0
  }

  /** `o[key] = v` on an object: an existing member keeps its place and
      takes the new value; a new member is inserted in property order. */
  function SetMember(fields: seq<(string, Value)>, key: string, v: Value): (r: seq<(string, Value)>)
    ensures Lookup(r, key) == Some(v)
    ensures forall k :: k != key ==> Lookup(r, k) == Lookup(fields, k)
    ensures |r| == if Lookup(fields, key).Some? then |fields| else |fields| + 1
  {
    if Lookup(fields, key).Some? then Replace(fields, key, v)
    else
      var p := InsertPosition(fields, key);
      var r := fields[..p] + [(key, v)] + fields[p..];
      assert fields == fields[..p] + fields[p..];
      forall k ensures Lookup(r, k) == if k == key then Some(v) else Lookup(fields, k) {
        LookupAppend(fields[..p] + [(key, v)], fields[p..], k);
        LookupAppend(fields[..p], [(key, v)], k);
        LookupAppend(fields[..p], fields[p..], k);
      }
      r
  }

  /** The member under `key` takes the value `v`; keys stay where they are. */
  function Replace(fields: seq<(string, Value)>, key: string, v: Value): (r: seq<(string, Value)>)
    requires Lookup(fields, key).Some?
    ensures |r| == |fields| && forall i :: 0 <= i < |r| ==> r[i].0 == fields[i].0
    ensures Lookup(r, key) == Some(v)
    ensures forall k :: k != key ==> Lookup(r, k) == Lookup(fields, k)
  {
    if fields[0].0 == key then [(key, v)] + fields[1..]
    else [fields[0]] + Replace(fields[1..], key, v)
  }

  /** Setting a member keeps an object's keys distinct and in property order. */
  lemma SetMemberOrder(fields: seq<(string, Value)>, key: string, v: Value)
    requires PropertyOrder(fields)
    ensures PropertyOrder(SetMember(fields, key, v))
  {
    if Lookup(fields, key).None? {
      InsertKeepsOrder(fields, InsertPosition(fields, key), key, v);
    }
  }

  lemma InsertKeepsOrder(fields: seq<(string, Value)>, p: nat, key: string, v: Value)
    requires PropertyOrder(fields) && p == InsertPosition(fields, key) && Lookup(fields, key).None?
    ensures PropertyOrder(fields[..p] + [(key, v)] + fields[p..])
  {
    InsertOrdered(fields, p, key, v);
    InsertDistinct(fields, p, key, v);
  }

  /** Element `i` of `fields` with `(key, v)` inserted at `p`. */
  lemma InsertedAt(fields: seq<(string, Value)>, p: nat, key: string, v: Value, i: nat)
    requires p <= |fields| && i <= |fields|
    ensures |fields[..p] + [(key, v)] + fields[p..]| == |fields| + 1
    ensures (fields[..p] + [(key, v)] + fields[p..])[i] ==
              if i < p then fields[i] else if i == p then (key, v) else fields[i - 1]
  {
  }

  lemma InsertOrdered(fields: seq<(string, Value)>, p: nat, key: string, v: Value)
    requires PropertyOrder(fields) && p == InsertPosition(fields, key) && Lookup(fields, key).None?
    ensures var r := fields[..p] + [(key, v)] + fields[p..];
      forall i, j :: 0 <= i < j < |r| && IsIndexKey(r[j].0) ==>
        IsIndexKey(r[i].0) && Decimal.DigitsValue(r[i].0) < Decimal.DigitsValue(r[j].0)
  {
    var r := fields[..p] + [(key, v)] + fields[p..];
    InsertedAt(fields, p, key, v, 0);
    forall i, j | 0 <= i < j < |r| && IsIndexKey(r[j].0)
      ensures IsIndexKey(r[i].0) && Decimal.DigitsValue(r[i].0) < Decimal.DigitsValue(r[j].0)
    {
      InsertedAt(fields, p, key, v, i);
      InsertedAt(fields, p, key, v, j);
      if i == p {
        IndexKeysOrdered(fields, p, j - 1, key);
      } else if j == p {
        assert r[i] == fields[i] && r[j].0 == key;
      } else {
        var i' := if i < p then i else i - 1;
        var j' := if j < p then j else j - 1;
        assert r[i] == fields[i'] && r[j] == fields[j'] && i' < j';
      }
    }
  }

  lemma InsertDistinct(fields: seq<(string, Value)>, p: nat, key: string, v: Value)
    requires DistinctKeys(fields) && p <= |fields| && Lookup(fields, key).None?
    ensures DistinctKeys(fields[..p] + [(key, v)] + fields[p..])
  {
    var r := fields[..p] + [(key, v)] + fields[p..];
    InsertedAt(fields, p, key, v, 0);
    forall i, j | 0 <= i < j < |r| ensures r[i].0 != r[j].0 {
      InsertedAt(fields, p, key, v, i);
      InsertedAt(fields, p, key, v, j);
      if i == p {
        assert Lookup(fields, fields[j - 1].0).Some?;
      } else if j == p {
        assert Lookup(fields, fields[i].0).Some?;
      } else {
        var i' := if i < p then i else i - 1;
        var j' := if j < p then j else j - 1;
        assert r[i] == fields[i'] && r[j] == fields[j'] && i' < j';
      }
    }
  }

  /** The key after the insertion point is no smaller index key, so neither is any later one. */
  lemma IndexKeysOrdered(fields: seq<(string, Value)>, p: nat, j: nat, key: string)
    requires PropertyOrder(fields) && p <= j < |fields| && p == InsertPosition(fields, key)
    requires Lookup(fields, key).None? && IsIndexKey(fields[j].0)
    ensures IsIndexKey(key) && Decimal.DigitsValue(key) < Decimal.DigitsValue(fields[j].0)
  {
    assert IsIndexKey(fields[p].0);
    assert Lookup(fields, fields[p].0).Some?;
    assert fields[p].0 != key;
    assert Decimal.DigitsValue(fields[p].0) != Decimal.DigitsValue(key);
  }

  /** `v.key` on a value other than `null`: the own member of an object,
      `undefined` for every other value. */
  function Get(v: Value, key: string): Option<Value> {
    if v.Obj? then Lookup(v.fields, key) else None
  }

  /** `v?.key`: `undefined` when `v` is `undefined` or `null`. */
  function GetOpt(v: Option<Value>, key: string): Option<Value> {
    if v.None? || v.value.Null? then None else Get(v.value, key)
  }

  /** `v[key]` with a string key on an object or an array: arrays answer
      canonical index keys ("0", "1", ...). */
  function Member(v: Value, key: string): (r: Option<Value>)
    ensures v.Obj? ==> r == Lookup(v.fields, key)
  {
    match v
    case Obj(fields) => Lookup(fields, key)
    case Arr(items) =>
      if Decimal.AllDigits(key) && key != [] && Decimal.NatToString(Decimal.DigitsValue(key)) == key
         && Decimal.DigitsValue(key) < |items|
      then Some(items[Decimal.DigitsValue(key)])
      else None
    case _ => None
  }

  /** `String(v)`, which is also what a template literal `${v}` inserts. */
  function ToJsString(v: Option<Value>): string {
    match v
    case None => "undefined"
    case Some(x) => ValueString(x)
  }

  function ValueString(v: Value): string
    decreases v, 1
  {
    match v
    case Null => "null"
    case Bool(b) => if b then "true" else "false"
    case Num(n) => Decimal.IntToString(n)
    case Str(s) => s
    case Arr(items) => JoinElements(items, v)
    case Obj(_) => "[object Object]"
  }

  /** `items.join(",")`: `null` elements contribute the empty string. */
  function JoinElements(items: seq<Value>, ghost whole: Value): string
    requires forall k :: 0 <= k < |items| ==> items[k] < whole
    decreases whole, 0, |items|
  {
    if items == [] then ""
    else
      (if items[0].Null? then "" else ValueString(items[0]))
      + (if |items| == 1 then "" else "," + JoinElements(items[1..], whole))
  }

  /** `v[i]` for an integer index: array elements, characters of a string,
      index-named members of an object. */
  function Index(v: Value, i: nat): Option<Value> {
    match v
    case Arr(items) => if i < |items| then Some(items[i]) else None
    case Str(s) => if i < |s| then Some(Str([s[i]])) else None
    case Obj(fields) => Lookup(fields, Decimal.NatToString(i))
    case _ => None
  }

  /** `items.find(matches)` over an array whose callback reads a member of
      each element: the first element the callback accepts, or the TypeError
      thrown at a `null` element met before it. */
  datatype Found = FoundAt(index: nat) | NotFound | NullAt(index: nat) {
    predicate Stopped() { FoundAt? || NullAt? }
  }

  /** Element `j` is neither `null` nor accepted. */
  predicate Passes(items: seq<Value>, j: int, matches: Value -> bool)
    requires 0 <= j < |items|
  {
    !items[j].Null? && !matches(items[j])
  }

  function Find(items: seq<Value>, matches: Value -> bool): (r: Found)
    ensures r.Stopped() ==> r.index < |items| && forall j :: 0 <= j < r.index ==> Passes(items, j, matches)
    ensures r.FoundAt? ==> !items[r.index].Null? && matches(items[r.index])
    ensures r.NullAt? ==> items[r.index].Null?
    ensures r.NotFound? ==> forall j :: 0 <= j < |items| ==> Passes(items, j, matches)
  {
    if items == [] then NotFound
    else if items[0].Null? then NullAt(0)
    else if matches(items[0]) then FoundAt(0)
    else
      assert forall j :: 1 <= j < |items| ==> Passes(items, j, matches) == Passes(items[1..], j - 1, matches);
      match Find(items[1..], matches)
      case FoundAt(k) => FoundAt(k + 1)
      case NullAt(k) => NullAt(k + 1)
      case NotFound => NotFound
  }

  /** `v || fallback` for a possibly undefined member. */
  function OrElse(v: Option<Value>, fallback: Value): (r: Value)
    ensures Truthy(v) ==> r == v.value
    ensures !Truthy(v) ==> r == fallback
  {
    if Truthy(v) then v.value else fallback
  }

  /** The message of the TypeError thrown by reading `key` from `null`. */
  function NullRead(key: string): string {
    "Cannot read properties of null (reading '" + key + "')"
  }
}
