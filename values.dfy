/** The interpreter's runtime objects (yan-lang.hpp, `Object` and its subclasses):
    numbers, strings, lists and dictionaries, with the value operations the interpreter
    applies to them. Objects that the source updates in place (`List`, `Dictionary`) are
    classes; immutable ones are datatype values. */
module Values {
  import opened Common

  /** `Number` holds a `std::variant<int, double>`; a double is modelled by the exact real
      it denotes. */
  datatype Number = Int(i: int) | Float(r: real)

  /** A runtime object as seen by the operations modelled here. Lists and dictionaries are
      references, so two values alias exactly when the source's pointers do. Functions,
      methods and builtin functions are opaque here and keep only their type name. */
  datatype Value =
    | Num(n: Number)
    | Str(s: string)
    | ListVal(list: ListObject)
    | DictVal(dict: DictObject)
    | ClassVal(cls: DictObject)
    | Other(typeName: string)

  /** `Object::typeName`. */
  function TypeName(v: Value): string {
    match v
    case Num(_) => "Number"
    case Str(_) => "String"
    case ListVal(_) => "List"
    case DictVal(_) => "Dictionary"
    case ClassVal(_) => "ClassObject"
    case Other(t) => t
  }

  /** `Number::null`, the value of statements and of mutating builtins: the integer 0. */
  const Null: Value := Num(Int(0))

  datatype ErrorKind =
    | TypeError | ValueError | RuntimeError | AttributeError | SyntaxError
    | IllegalCharacterError | OSError

  /** An error object: its class and its message (messages that interpolate values keep
      only their fixed text). */
  datatype Error = Error(kind: ErrorKind, message: string)

  /** What running an operation comes to when the source can also loop forever or reach
      undefined behaviour (an out-of-bounds access, a null `std::string`). */
  datatype Outcome<+T> = Success(value: T) | Failure(error: Error) | Diverges | Undefined

  /** `Object::IllegalOperation`: the TypeError of an operator a type does not support. */
  function IllegalOperation(op: string): Error {
    Error(TypeError, "Invilid operation '" + op + "'")
  }

  /** Numeric equality across int and double, as `Number::ComparisonOperation` with `==`. */
  function NumberEquals(a: Number, b: Number): bool {
    AsReal(a) == AsReal(b)
  }

  function AsReal(n: Number): real {
    match n
    case Int(i) => i as real
    case Float(r) => r
  }

  // ---------------------------------------------------------------------------------
  // Strings
  // ---------------------------------------------------------------------------------

  /** `String::Subsciption` (yan-lang.hpp:3319-3351): no negative indexing, every failure
      is a TypeError. */
  function StringIndex(s: string, index: Value): (r: Result<Value, Error>)
    ensures r.Ok? <==> index.Num? && index.n.Int? && 0 <= index.n.i < |s|
    ensures r.Ok? ==> r.value == Str([s[index.n.i]])
    ensures r.Err? ==> r.error.kind == TypeError
  {
    if !index.Num? then Err(Error(TypeError, "String index should be a number"))
    else if !index.n.Int? then Err(Error(TypeError, "String index should be a positive integer"))
    else if index.n.i < 0 then Err(Error(TypeError, "String index should be a positive integer"))
    else if index.n.i + 1 > |s| then Err(Error(TypeError, "String index out of range"))
    else Ok(Str([s[index.n.i]]))
  }

  /** `String::Repeat` (yan-lang.hpp:3219-3225): `times` copies of `s` one after the
      other; the `for` loop runs no round for a count of zero or below. Character k of
      the result is character k mod |s| of `s`. */
  method Repeat(s: string, times: int) returns (r: string)
    ensures |r| == |s| * (if times < 0 then 0 else times)
    ensures forall k :: 0 <= k < |r| ==> r[k] == s[k % |s|]
  {
    r := "";
    var i := 0;
    while i < times
      invariant 0 <= i <= (if times < 0 then 0 else times)
      invariant |r| == |s| * i
      invariant forall k :: 0 <= k < |r| ==> r[k] == s[k % |s|]
    {
      forall k | |r| <= k < |r| + |s|
        ensures (r + s)[k] == s[k % |s|]
      {
        ModUnique(k, |s|, i, k - |r|);
      }
      r := r + s;
      i := i + 1;
    }
    assert i == (if times < 0 then 0 else times);
  }

  /** A positive multiple of a positive number is at least that number. */
  lemma MulAtLeast(n: int, d: int)
    requires n > 0 && d >= 1
    ensures n * d >= n
  {
  }

  /** Euclidean division has one quotient and remainder: position n * q + r of a run of
      n-character blocks is position r of a block. */
  lemma ModUnique(y: int, n: int, q: int, r: int)
    requires n > 0 && 0 <= r < n && y == n * q + r
    ensures y % n == r
  {
    var q' := y / n;
    if q > q' {
      MulAtLeast(n, q - q');
      assert false;
    } else if q < q' {
      MulAtLeast(n, q' - q);
      assert false;
    }
  }

  /** `String::MultipliedBy` (yan-lang.hpp:3239-3252): a string times an Int is the
      repeated string; a double count is a TypeError, any other operand the
      IllegalOperation of `*`. */
  method StringMultipliedBy(s: string, other: Value) returns (r: Result<Value, Error>)
    ensures r.Ok? <==> other.Num? && other.n.Int?
    ensures r.Ok? ==> (r.value.Str? &&
              |r.value.s| == |s| * (if other.n.i < 0 then 0 else other.n.i) &&
              forall k :: 0 <= k < |r.value.s| ==> r.value.s[k] == s[k % |s|])
    ensures r.Err? ==> r.error.kind == TypeError
    ensures !other.Num? ==> r == Err(IllegalOperation("*"))
  {
    if !other.Num? {
      return Err(IllegalOperation("*"));
    }
    if !other.n.Int? {
      return Err(Error(TypeError, "The right of '*' in string multiplication must be an integer"));
    }
    var t := Repeat(s, other.n.i);
    r := Ok(Str(t));
  }

  /** `String::AddTo` (yan-lang.hpp:3230-3237): two strings concatenate; any other
      operand is the IllegalOperation of `+`. The result starts with the receiver and
      ends with the operand. */
  function StringAddTo(s: string, other: Value): (r: Result<Value, Error>)
    ensures r.Ok? <==> other.Str?
    ensures r.Ok? ==> (r.value.Str? && |r.value.s| == |s| + |other.s| &&
              r.value.s[..|s|] == s && r.value.s[|s|..] == other.s)
    ensures r.Err? ==> r.error == IllegalOperation("+")
  {
    if other.Str? then Ok(Str(s + other.s)) else Err(IllegalOperation("+"))
  }

  /** The boolean of a comparison result, as `Number::AsBool` reads 1 and 0. */
  function Truth(b: bool): Value {
    if b then Num(Int(1)) else Num(Int(0))
  }

  /** `String::GetCompEquals` (yan-lang.hpp:3254-3260): Number 1 or 0 for two strings,
      the IllegalOperation of `==` otherwise. */
  function StringCompEquals(s: string, other: Value): Result<Value, Error> {
    if other.Str? then Ok(Truth(s == other.s)) else Err(IllegalOperation("=="))
  }

  /** `String::GetCompNequals` (yan-lang.hpp:3262-3268): Number 0 or 1 for two strings,
      the IllegalOperation of `!=` otherwise. */
  function StringCompNequals(s: string, other: Value): Result<Value, Error> {
    if other.Str? then Ok(Truth(s != other.s)) else Err(IllegalOperation("!="))
  }

  /** String equality is the comparison the dictionary's key scan makes with a String
      key: it is defined for the same operands, agrees on the verdict, and `!=` is its
      negation. */
  lemma StringComparisons(s: string, other: Value)
    ensures StringCompEquals(s, other).Ok? <==> KeyEquals(Str(s), other).Some?
    ensures StringCompEquals(s, other).Ok? ==>
              StringCompEquals(s, other).value == Truth(KeyEquals(Str(s), other).value)
    ensures StringCompNequals(s, other).Ok? <==> StringCompEquals(s, other).Ok?
    ensures StringCompNequals(s, other).Ok? ==>
              (StringCompNequals(s, other).value == Num(Int(1)) <==>
               StringCompEquals(s, other).value == Num(Int(0)))
    ensures StringCompEquals(s, other).Err? ==> StringCompEquals(s, other).error.kind == TypeError
  {
  }

  /** `String::AsBool` (yan-lang.hpp:3270-3272): a string is true when it is not empty. */
  function StringAsBool(s: string): bool {
    |s| > 0
  }

  /** `String::Len` (yan-lang.hpp:3282-3284): the integer number of characters. */
  function StringLen(s: string): Value {
    Num(Int(|s|))
  }

  /** A string is true exactly when it has a first character to index, and an index is
      accepted exactly when it lies below the length. */
  lemma StringAsBoolLen(s: string, i: int)
    ensures StringAsBool(s) <==> StringIndex(s, Num(Int(0))).Ok?
    ensures StringIndex(s, Num(Int(i))).Ok? <==> 0 <= i < StringLen(s).n.i
  {
  }

  /** The length of a sum is the sum of the lengths, and a sum is true when either part
      is. */
  lemma StringAddToLen(s: string, t: string)
    ensures StringAddTo(s, Str(t)).Ok?
    ensures StringLen(StringAddTo(s, Str(t)).value.s).n.i == StringLen(s).n.i + StringLen(t).n.i
    ensures StringAsBool(StringAddTo(s, Str(t)).value.s) <==> StringAsBool(s) || StringAsBool(t)
  {
  }

  // ---------------------------------------------------------------------------------
  // Lists
  // ---------------------------------------------------------------------------------

  /** The index check shared by `List::DividedBy` and `List::SubsciptionAssignment`:
      a negative integer counts from the end; `op` names the operator in the TypeError a
      non-number index gets. */
  function ListIndex(size: nat, index: Value, op: string): Result<nat, Error>
  {
    if !index.Num? then Err(IllegalOperation(op))
    else if !index.n.Int? then Err(Error(TypeError, "List index must be an integer"))
    else
      var j := if index.n.i < 0 then size + index.n.i else index.n.i;
      if j + 1 > size || j < 0 then Err(Error(RuntimeError, "List index out of range"))
      else Ok(j)
  }

  /** An integer index is accepted exactly when it lies in [-size, size), and it then
      designates slot i, or slot size + i for a negative i. */
  lemma ListIndexInt(size: nat, i: int, op: string)
    ensures ListIndex(size, Num(Int(i)), op).Ok? <==> -(size as int) <= i < size
    ensures ListIndex(size, Num(Int(i)), op).Ok? ==>
              ListIndex(size, Num(Int(i)), op).value == (if i < 0 then size + i else i)
    ensures ListIndex(size, Num(Int(i)), op).Err? ==>
              ListIndex(size, Num(Int(i)), op).error.kind == RuntimeError
  {
  }

  /** Every accepted index is a valid slot; every rejected one has the error class the
      source gives it. */
  lemma ListIndexClasses(size: nat, index: Value, op: string)
    ensures ListIndex(size, index, op).Ok? ==> ListIndex(size, index, op).value < size
    ensures ListIndex(size, index, op).Err? ==>
              (!index.Num? || index.n.Float? <==> ListIndex(size, index, op).error.kind == TypeError)
  {
  }

  /** `List::MultipliedBy` AS WRITTEN (yan-lang.hpp:3390-3402): the copy already holds the
      receiver's elements and the first loop appends them a second time. */
  function MultipliedByAsWritten(receiver: seq<Value>, other: seq<Value>): seq<Value> {
    receiver + receiver + other
  }

  /** The copy made by `MultipliedBy` as written repeats the receiver: it is not the
      concatenation `<list-concat '*'>` names. */
  lemma MultipliedByAsWrittenRepeats(x: Value, y: Value)
    ensures MultipliedByAsWritten([x], [y]) == [x, x, y]
    ensures MultipliedByAsWritten([x], [y]) != [x] + [y]
  {
  }

  /** The index check of `List::SubstractedBy` AS WRITTEN (yan-lang.hpp:3404-3431): the
      guard `indexValue + 1 > size` compares unsigned and lacks `indexValue < 0`, so the
      adjusted index -1 passes and `erase(begin() - 1)` follows. */
  function RemoveIndexAsWritten(size: nat, i: int): Result<int, Error> {
    var j := if i < 0 then size + i else i;
    if j + 1 < 0 || j + 1 > size then Err(Error(RuntimeError, "List index out of range"))
    else Ok(j)
  }

  /** On a one-element list, index -2 is let through as position -1, before the start. */
  lemma RemoveIndexAsWrittenLetsMinusOneThrough()
    ensures RemoveIndexAsWritten(1, -2) == Ok(-1)
    ensures ListIndex(1, Num(Int(-2)), "<list-remove '-'>").Err?
  {
  }

  /** Sequence `s` without position `j`. */
  function RemoveAt(s: seq<Value>, j: nat): (r: seq<Value>)
    requires j < |s|
    ensures |r| == |s| - 1
    ensures forall k :: 0 <= k < j ==> r[k] == s[k]
    ensures forall k :: j <= k < |r| ==> r[k] == s[k + 1]
  {
    s[..j] + s[j + 1..]
  }

  /** `List` (yan-lang.hpp:3377-3505): a vector of object pointers updated in place. */
  class ListObject {
    var elements: seq<Value>

    constructor (elements: seq<Value>)
      ensures this.elements == elements
    {
      this.elements := elements;
    }

    /** `List::AddTo`: a copy of the list with `other` appended; the receiver is unchanged. */
    method AddTo(other: Value) returns (r: ListObject)
      ensures fresh(r) && r.elements == elements + [other]
    {
      r := Copy();
      r.elements := r.elements + [other];
    }

    /** `List::Copy`: a new list sharing the element objects. */
    method Copy() returns (r: ListObject)
      ensures fresh(r) && r.elements == elements
    {
      r := new ListObject(elements);
    }

    /** `List::MultipliedBy`, corrected to the concatenation its operator label names:
        a new list holding the receiver's elements followed by the other list's. */
    method MultipliedBy(other: Value) returns (r: Result<ListObject, Error>)
      ensures other.ListVal? <==> r.Ok?
      ensures r.Ok? ==> fresh(r.value) && r.value.elements == elements + other.list.elements
      ensures r.Err? ==> r.error == IllegalOperation("<list-concat '*'>")
    {
      if !other.ListVal? {
        return Err(IllegalOperation("<list-concat '*'>"));
      }
      var newList := Copy();
      var src := other.list.elements;
      var i := 0;
      while i < |src|
        invariant 0 <= i <= |src|
        invariant newList.elements == elements + src[..i]
      {
        newList.elements := newList.elements + [src[i]];
        i := i + 1;
      }
      assert src[..|src|] == src;
      r := Ok(newList);
    }

    /** `List::SubstractedBy`, with the missing lower-bound check restored: a copy without
        the indexed element; the receiver is unchanged. */
    method SubstractedBy(other: Value) returns (r: Result<ListObject, Error>)
      ensures r.Ok? <==> ListIndex(|elements|, other, "<list-remove '-'>").Ok?
      ensures r.Ok? ==> (fresh(r.value) &&
                r.value.elements == RemoveAt(elements, ListIndex(|elements|, other, "<list-remove '-'>").value))
      ensures r.Err? ==> r.error == ListIndex(|elements|, other, "<list-remove '-'>").error
    {
      var idx := ListIndex(|elements|, other, "<list-remove '-'>");
      if idx.Err? {
        return Err(idx.error);
      }
      var newList := Copy();
      newList.elements := RemoveAt(newList.elements, idx.value);
      r := Ok(newList);
    }

    /** `List::DividedBy` and `List::Subsciption`: the element at the index. */
    method Subscription(index: Value) returns (r: Result<Value, Error>)
      ensures r.Ok? <==> ListIndex(|elements|, index, "<list-access '/'>").Ok?
      ensures r.Ok? ==> r.value == elements[ListIndex(|elements|, index, "<list-access '/'>").value]
      ensures r.Err? ==> r.error == ListIndex(|elements|, index, "<list-access '/'>").error
    {
      var idx := ListIndex(|elements|, index, "<list-access '/'>");
      if idx.Err? {
        return Err(idx.error);
      }
      r := Ok(elements[idx.value]);
    }

    /** `List::SubsciptionAssignment`: stores `newVal` in the indexed slot and nowhere
        else; on an error the list is unchanged. */
    method SubscriptionAssignment(index: Value, newVal: Value) returns (r: Result<Value, Error>)
      modifies this
      ensures r.Ok? <==> ListIndex(|old(elements)|, index, "<list-access '[]'>").Ok?
      ensures r.Ok? ==> (r.value == Null &&
                elements == old(elements)[ListIndex(|old(elements)|, index, "<list-access '[]'>").value := newVal])
      ensures r.Err? ==> (r.error == ListIndex(|old(elements)|, index, "<list-access '[]'>").error &&
                elements == old(elements))
    {
      var idx := ListIndex(|elements|, index, "<list-access '[]'>");
      if idx.Err? {
        return Err(idx.error);
      }
      elements := elements[idx.value := newVal];
      r := Ok(Null);
    }

    /** `List::Len`. */
    method Len() returns (r: Value)
      ensures r == Num(Int(|elements|))
    {
      r := Num(Int(|elements|));
    }
  }

  // ---------------------------------------------------------------------------------
  // Dictionaries
  // ---------------------------------------------------------------------------------

  /** `other->GetCompEquals(k)` as the dictionary uses it: only two numbers or two strings
      can be compared; any other pair yields no result object, which the dictionary turns
      into a TypeError. */
  function KeyEquals(other: Value, k: Value): Option<bool> {
    if other.Num? && k.Num? then Some(NumberEquals(other.n, k.n))
    else if other.Str? && k.Str? then Some(other.s == k.s)
    else None
  }

  /** The key scan of `Dictionary::Subsciption` and `SubsciptionAssignment` from entry
      `i` on: the position of the first key equal to `key`, `None` when there is none, or
      a TypeError at the first key that cannot be compared with it. */
  function ScanFrom(entries: seq<(Value, Value)>, key: Value, i: nat): Result<Option<nat>, Error>
    requires i <= |entries|
    decreases |entries| - i
  {
    if i == |entries| then Ok(None)
    else match KeyEquals(key, entries[i].0)
      case None => Err(Error(TypeError, "Invilid key type"))
      case Some(true) => Ok(Some(i))
      case Some(false) => ScanFrom(entries, key, i + 1)
  }

  /** The scan finds position `p` exactly when every earlier key is comparable with and
      different from `key` and the key at `p` equals it; it finds nothing exactly when
      every key is comparable and different. */
  lemma {:induction false} ScanFromSpec(entries: seq<(Value, Value)>, key: Value, i: nat)
    requires i <= |entries|
    ensures forall p :: ScanFrom(entries, key, i) == Ok(Some(p)) <==>
              i <= p < |entries| && KeyEquals(key, entries[p].0) == Some(true) &&
              forall j :: i <= j < p ==> KeyEquals(key, entries[j].0) == Some(false)
    ensures ScanFrom(entries, key, i) == Ok(None) <==>
              forall j :: i <= j < |entries| ==> KeyEquals(key, entries[j].0) == Some(false)
    decreases |entries| - i
  {
    if i < |entries| {
      ScanFromSpec(entries, key, i + 1);
    }
  }

  /** Insert `e` at position `at`, or at the end when `at` lies beyond it. */
  function InsertAt(entries: seq<(Value, Value)>, at: nat, e: (Value, Value)): (r: seq<(Value, Value)>)
    ensures |r| == |entries| + 1
  {
    var p := if at <= |entries| then at else |entries|;
    entries[..p] + [e] + entries[p..]
  }

  /** `Dictionary` (yan-lang.hpp:3546-3638), a `std::map<Object *, Object *>` keyed by
      pointer. Its iteration order is the order of the key objects' addresses: the model
      keeps the entries in that order, and a new key's place in it is a parameter. */
  class DictObject {
    var entries: seq<(Value, Value)>

    constructor (entries: seq<(Value, Value)>)
      ensures this.entries == entries
    {
      this.entries := entries;
    }

    /** `Dictionary::Copy` (yan-lang.hpp:3629-3633): a new dictionary holding the same
        key and value objects; the receiver is unchanged. */
    method Copy() returns (r: DictObject)
      ensures fresh(r) && r.entries == entries
    {
      r := new DictObject(entries);
    }

    /** `Dictionary::Subsciption`: the value of the first key equal to `key`, a TypeError
        at the first key the lookup cannot compare with, or an AttributeError. */
    method Subscription(key: Value) returns (r: Result<Value, Error>)
      ensures ScanFrom(entries, key, 0).Err? ==> r.Err? && r.error.kind == TypeError
      ensures ScanFrom(entries, key, 0) == Ok(None) ==> r.Err? && r.error.kind == AttributeError
      ensures forall p :: ScanFrom(entries, key, 0) == Ok(Some(p)) ==> p < |entries| && r == Ok(entries[p].1)
    {
      var i := 0;
      while i < |entries|
        invariant 0 <= i <= |entries|
        invariant ScanFrom(entries, key, i) == ScanFrom(entries, key, 0)
      {
        var c := KeyEquals(key, entries[i].0);
        if c.None? {
          return Err(Error(TypeError, "Invilid key type"));
        }
        if c.value {
          return Ok(entries[i].1);
        }
        i := i + 1;
      }
      r := Err(Error(AttributeError, "Dictionary has no attribute"));
    }

    /** `Dictionary::SubsciptionAssignment`: overwrite the value of the first equal key
        (the key object is kept), or insert a new String or Number key at `insertAt`
        (its address-order position). */
    method SubscriptionAssignment(key: Value, newVal: Value, insertAt: nat) returns (r: Result<Value, Error>)
      modifies this
      ensures old(ScanFrom(entries, key, 0)).Err? ==> r.Err? && r.error.kind == TypeError && entries == old(entries)
      ensures forall p :: old(ScanFrom(entries, key, 0)) == Ok(Some(p)) ==>
                p < |old(entries)| && r == Ok(Null) && entries == old(entries)[p := (old(entries)[p].0, newVal)]
      ensures old(ScanFrom(entries, key, 0)) == Ok(None) ==>
                if key.Str? || key.Num? then r == Ok(Null) && entries == InsertAt(old(entries), insertAt, (key, newVal))
                else r.Err? && r.error.kind == TypeError && entries == old(entries)
    {
      var i := 0;
      while i < |entries|
        invariant 0 <= i <= |entries|
        invariant ScanFrom(entries, key, i) == ScanFrom(entries, key, 0)
      {
        var c := KeyEquals(key, entries[i].0);
        if c.None? {
          return Err(Error(TypeError, "Invilid key type"));
        }
        if c.value {
          entries := entries[i := (entries[i].0, newVal)];
          return Ok(Null);
        }
        i := i + 1;
      }
      if !key.Str? && !key.Num? {
        return Err(Error(TypeError, "Invilid key type"));
      }
      entries := InsertAt(entries, insertAt, (key, newVal));
      r := Ok(Null);
    }

    /** `Dictionary::GetAttr`: the value of the first String key spelled `attr`;
        non-String keys are skipped, never compared. */
    method GetAttr(attr: string) returns (r: Result<Value, Error>)
      ensures r == AttrLookup(entries, attr)
    {
      var i := 0;
      while i < |entries|
        invariant 0 <= i <= |entries|
        invariant forall j :: 0 <= j < i ==> entries[j].0 != Str(attr)
      {
        if entries[i].0 == Str(attr) {
          AttrLookupFirst(entries, attr, i);
          return Ok(entries[i].1);
        }
        i := i + 1;
      }
      AttrLookupAbsent(entries, attr);
      r := Err(Error(AttributeError, "Could not found attribute"));
    }

    /** `Dictionary::SetAttr`: an assignment through the String key `attr`, with all the
        checks of `SubscriptionAssignment` (a non-comparable key before the match still
        fails with a TypeError). The first equal key keeps its place and takes the new
        value, or the String key is inserted at `insertAt`; either way the attribute then
        reads back as the new value. */
    method SetAttr(attr: string, newVal: Value, insertAt: nat) returns (r: Result<Value, Error>)
      modifies this
      ensures old(ScanFrom(entries, Str(attr), 0)).Err? ==>
                r.Err? && r.error.kind == TypeError && entries == old(entries)
      ensures forall p :: old(ScanFrom(entries, Str(attr), 0)) == Ok(Some(p)) ==>
                p < |old(entries)| && entries == old(entries)[p := (old(entries)[p].0, newVal)]
      ensures old(ScanFrom(entries, Str(attr), 0)) == Ok(None) ==>
                entries == InsertAt(old(entries), insertAt, (Str(attr), newVal))
      ensures old(ScanFrom(entries, Str(attr), 0)).Ok? ==> r == Ok(Null) && AttrLookup(entries, attr) == Ok(newVal)
    {
      ghost var before := entries;
      ScanFromSpec(entries, Str(attr), 0);
      r := SubscriptionAssignment(Str(attr), newVal, insertAt);
      match ScanFrom(before, Str(attr), 0)
      case Ok(Some(p)) => AttrAfterOverwrite(before, attr, newVal, p);
      case Ok(None) => AttrAfterInsert(before, attr, newVal, insertAt);
      case Err(_) =>
    }
  }

  /** The value of the first entry whose key is the String `attr`. */
  function AttrLookup(entries: seq<(Value, Value)>, attr: string): Result<Value, Error> {
    if entries == [] then Err(Error(AttributeError, "Could not found attribute"))
    else if entries[0].0 == Str(attr) then Ok(entries[0].1)
    else AttrLookup(entries[1..], attr)
  }

  lemma {:induction false} AttrLookupFirst(entries: seq<(Value, Value)>, attr: string, i: nat)
    requires i < |entries| && entries[i].0 == Str(attr)
    requires forall j :: 0 <= j < i ==> entries[j].0 != Str(attr)
    ensures AttrLookup(entries, attr) == Ok(entries[i].1)
    decreases i
  {
    if i > 0 {
      AttrLookupFirst(entries[1..], attr, i - 1);
    }
  }

  lemma {:induction false} AttrLookupAbsent(entries: seq<(Value, Value)>, attr: string)
    requires forall j :: 0 <= j < |entries| ==> entries[j].0 != Str(attr)
    ensures AttrLookup(entries, attr) == Err(Error(AttributeError, "Could not found attribute"))
    decreases |entries|
  {
    if entries != [] {
      AttrLookupAbsent(entries[1..], attr);
    }
  }

  /** Overwriting the first key spelled `attr` makes the attribute read back the new
      value. */
  lemma AttrAfterOverwrite(entries: seq<(Value, Value)>, attr: string, v: Value, p: nat)
    requires ScanFrom(entries, Str(attr), 0) == Ok(Some(p))
    ensures p < |entries| && AttrLookup(entries[p := (entries[p].0, v)], attr) == Ok(v)
  {
    ScanFromSpec(entries, Str(attr), 0);
    var after := entries[p := (entries[p].0, v)];
    forall j | 0 <= j < p ensures after[j].0 != Str(attr) {
      assert KeyEquals(Str(attr), entries[j].0) == Some(false);
    }
    assert KeyEquals(Str(attr), entries[p].0) == Some(true);
    AttrLookupFirst(after, attr, p);
  }

  /** Inserting a new key `attr` into a dictionary whose keys are all comparable with it
      and different from it makes the attribute read back the new value. */
  lemma AttrAfterInsert(entries: seq<(Value, Value)>, attr: string, v: Value, insertAt: nat)
    requires ScanFrom(entries, Str(attr), 0) == Ok(None)
    ensures AttrLookup(InsertAt(entries, insertAt, (Str(attr), v)), attr) == Ok(v)
  {
    ScanFromSpec(entries, Str(attr), 0);
    var q := if insertAt <= |entries| then insertAt else |entries|;
    var after := InsertAt(entries, insertAt, (Str(attr), v));
    forall j | 0 <= j < q ensures after[j].0 != Str(attr) {
      assert after[j] == entries[j];
      assert KeyEquals(Str(attr), entries[j].0) == Some(false);
    }
    AttrLookupFirst(after, attr, q);
  }

  /** After a successful subscription assignment, looking the same key up yields the
      value just stored. */
  lemma AssignThenLookup(entries: seq<(Value, Value)>, key: Value, v: Value, insertAt: nat)
    requires ScanFrom(entries, key, 0).Ok?
    requires ScanFrom(entries, key, 0) == Ok(None) ==> key.Str? || key.Num?
    ensures var after := match ScanFrom(entries, key, 0).value
                         case Some(p) => if p < |entries| then entries[p := (entries[p].0, v)] else entries
                         case None => InsertAt(entries, insertAt, (key, v));
            exists p :: ScanFrom(after, key, 0) == Ok(Some(p)) && p < |after| && after[p].1 == v
  {
    ScanFromSpec(entries, key, 0);
    match ScanFrom(entries, key, 0).value
    case Some(p) =>
      var after := entries[p := (entries[p].0, v)];
      ScanFromSpec(after, key, 0);
      assert ScanFrom(after, key, 0) == Ok(Some(p));
    case None =>
      var q := if insertAt <= |entries| then insertAt else |entries|;
      var after := InsertAt(entries, insertAt, (key, v));
      assert after[q] == (key, v);
      assert KeyEquals(key, key) == Some(true);
      forall j | 0 <= j < q ensures KeyEquals(key, after[j].0) == Some(false) {
        assert after[j] == entries[j];
      }
      ScanFromSpec(after, key, 0);
      assert ScanFrom(after, key, 0) == Ok(Some(q));
  }

  // ---------------------------------------------------------------------------------
  // Dictionary literals and class prototypes
  // ---------------------------------------------------------------------------------

  /** What a dictionary literal evaluates to: a plain `Dictionary`, or a `ClassObject`
      prototype with its class name. */
  datatype LiteralShape = PlainDictionary | ClassPrototype(className: string)

  /** Some key of the literal is the String `name`. */
  predicate HasStringKey(entries: seq<(Value, Value)>, name: string) {
    exists j :: 0 <= j < |entries| && entries[j].0 == Str(name)
  }

  /** The class-literal rule of `Interpreter::VisitDictionary` (yan-lang.hpp:5794-5836)
      with `ClassObject::BuildClass` (3936-3953), over the already evaluated entries:
      a `'__cls__'` key makes a class prototype, which needs an `'__init__'` key and a
      String class name (the first `'__cls__'` entry in iteration order). */
  method ClassifyLiteral(entries: seq<(Value, Value)>) returns (r: Result<LiteralShape, Error>)
    ensures !HasStringKey(entries, "__cls__") ==> r == Ok(PlainDictionary)
    ensures HasStringKey(entries, "__cls__") && !HasStringKey(entries, "__init__") ==>
              r.Err? && r.error.kind == TypeError
    ensures HasStringKey(entries, "__cls__") && HasStringKey(entries, "__init__") ==>
              AttrLookup(entries, "__cls__").Ok? &&
              (if AttrLookup(entries, "__cls__").value.Str?
               then r == Ok(ClassPrototype(AttrLookup(entries, "__cls__").value.s))
               else r.Err? && r.error.kind == TypeError)
  {
    var isClass, hasCtor := false, false;
    var i := 0;
    while i < |entries|
      invariant 0 <= i <= |entries|
      invariant isClass <==> exists j :: 0 <= j < i && entries[j].0 == Str("__cls__")
      invariant hasCtor <==> exists j :: 0 <= j < i && entries[j].0 == Str("__init__")
    {
      var k := entries[i].0;
      if k.Str? {
        if k.s == "__cls__" {
          isClass := true;
        } else if k.s == "__init__" {
          hasCtor := true;
        }
      }
      i := i + 1;
    }
    if isClass && !hasCtor {
      return Err(Error(TypeError, "Prototype of object should have a '__init__' as its constructor"));
    }
    if !isClass {
      return Ok(PlainDictionary);
    }
    // ClassObject::BuildClass
    var j :| 0 <= j < |entries| && entries[j].0 == Str("__cls__");
    AttrLookupExists(entries, "__cls__", j);
    var className := AttrLookup(entries, "__cls__");
    if !className.value.Str? {
      return Err(Error(TypeError, "Invilid type for '__cls__'"));
    }
    r := Ok(ClassPrototype(className.value.s));
  }

  /** A key spelled `attr` anywhere makes the attribute lookup succeed. */
  lemma {:induction false} AttrLookupExists(entries: seq<(Value, Value)>, attr: string, i: nat)
    requires i < |entries| && entries[i].0 == Str(attr)
    ensures AttrLookup(entries, attr).Ok?
    decreases i
  {
    if entries[0].0 != Str(attr) {
      AttrLookupExists(entries[1..], attr, i - 1);
    }
  }
}
