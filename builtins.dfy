/** Builtin functions of the interpreter that work on lists, the environment variables and
    the name shapes `import` and `require` accept (yan-lang.hpp:3987-4064, 4323-4506 and
    4663-4741). Each builtin receives its arguments already bound, as the values the
    source reads back from `ctx->symbols`. */
module Builtins {
  import opened Common
  import opened Values
  import opened TextUtil

  // ---------------------------------------------------------------------------------
  // List builtins
  // ---------------------------------------------------------------------------------

  /** `AssertYanTypeMatches` with a single valid type: a TypeError naming the argument. */
  function TypeMismatch(argName: string): Error {
    Error(TypeError, "Type of argument '" + argName + "' mismatched")
  }

  /** `List_::Append`: pushes `o` onto the list in place and returns `null`. */
  method Append(lst: Value, o: Value) returns (r: Result<Value, Error>)
    modifies if lst.ListVal? then {lst.list} else {}
    ensures lst.ListVal? ==> r == Ok(Null) && lst.list.elements == old(lst.list.elements) + [o]
    ensures !lst.ListVal? ==> r == Err(TypeMismatch("_lst"))
  {
    if !lst.ListVal? {
      return Err(TypeMismatch("_lst"));
    }
    lst.list.elements := lst.list.elements + [o];
    r := Ok(Null);
  }

  /** `List_::Concat`: appends the second list's elements to the first in place. When
      both arguments are the same list the source iterates a vector it is growing; the
      model appends a snapshot of the second list. */
  method Concat(lst1: Value, lst2: Value) returns (r: Result<Value, Error>)
    modifies if lst1.ListVal? then {lst1.list} else {}
    ensures lst1.ListVal? && lst2.ListVal? ==>
              r == Ok(Null) && lst1.list.elements == old(lst1.list.elements) + old(lst2.list.elements)
    ensures !lst1.ListVal? ==> r == Err(TypeMismatch("_lst1"))
    ensures lst1.ListVal? && !lst2.ListVal? ==> r == Err(TypeMismatch("_lst2")) && lst1.list.elements == old(lst1.list.elements)
  {
    if !lst1.ListVal? {
      return Err(TypeMismatch("_lst1"));
    }
    if !lst2.ListVal? {
      return Err(TypeMismatch("_lst2"));
    }
    var src := lst2.list.elements;
    var i := 0;
    while i < |src|
      invariant 0 <= i <= |src|
      invariant lst1.list.elements == old(lst1.list.elements) + src[..i]
    {
      lst1.list.elements := lst1.list.elements + [src[i]];
      i := i + 1;
    }
    assert src[..|src|] == src;
    r := Ok(Null);
  }

  /** The index checks of `List_::Remove` AS WRITTEN (yan-lang.hpp:4337-4366): there is no
      upper bound, so `erase(begin() + idx)` runs past the end (`Undefined`). */
  function RemoveIndexCheckAsWritten(size: nat, idx: Value): Outcome<nat> {
    if !idx.Num? then Failure(TypeMismatch("_idx"))
    else if !idx.n.Int? then Failure(Error(TypeError, "List index must be an integer"))
    else if idx.n.i < 0 then Failure(Error(TypeError, "List index must be a positive integer"))
    else if idx.n.i >= size then Undefined
    else Success(idx.n.i)
  }

  /** The index checks of `List_::Remove` with the bound check restored. */
  function RemoveIndexCheck(size: nat, idx: Value): (r: Result<nat, Error>)
    ensures r.Ok? ==> r.value < size
  {
    if !idx.Num? then Err(TypeMismatch("_idx"))
    else if !idx.n.Int? then Err(Error(TypeError, "List index must be an integer"))
    else if idx.n.i < 0 then Err(Error(TypeError, "List index must be a positive integer"))
    else if idx.n.i >= size then Err(Error(RuntimeError, "List index out of range"))
    else Ok(idx.n.i)
  }

  /** `remove(lst, 0)` on an empty list passes every check as written; the corrected check
      rejects it and otherwise agrees. */
  lemma RemoveFromEmptyList()
    ensures RemoveIndexCheckAsWritten(0, Num(Int(0))) == Undefined
    ensures RemoveIndexCheck(0, Num(Int(0))).Err?
  {
  }

  lemma RemoveIndexCheckAgrees(size: nat, idx: Value)
    ensures RemoveIndexCheckAsWritten(size, idx) != Undefined ==>
              match RemoveIndexCheckAsWritten(size, idx)
              case Success(j) => RemoveIndexCheck(size, idx) == Ok(j)
              case Failure(e) => RemoveIndexCheck(size, idx) == Err(e)
              case _ => false
  {
  }

  /** `List_::Remove`, with the bound check restored: deletes the indexed element in
      place. */
  method Remove(lst: Value, idx: Value) returns (r: Result<Value, Error>)
    modifies if lst.ListVal? then {lst.list} else {}
    ensures !lst.ListVal? ==> r == Err(TypeMismatch("_lst"))
    ensures lst.ListVal? ==>
              match RemoveIndexCheck(|old(lst.list.elements)|, idx)
              case Ok(j) => r == Ok(Null) && lst.list.elements == RemoveAt(old(lst.list.elements), j)
              case Err(e) => r == Err(e) && lst.list.elements == old(lst.list.elements)
  {
    if !lst.ListVal? {
      return Err(TypeMismatch("_lst"));
    }
    var check := RemoveIndexCheck(|lst.list.elements|, idx);
    if check.Err? {
      return Err(check.error);
    }
    lst.list.elements := RemoveAt(lst.list.elements, check.value);
    r := Ok(Null);
  }

  /** The index checks of the builtin `Set` AS WRITTEN (yan-lang.hpp:4476-4506): no upper
      bound, so `elements[idx]` is written past the end (`Undefined`). */
  function SetIndexCheckAsWritten(size: nat, idx: Value): Outcome<nat> {
    if !idx.Num? then Failure(TypeMismatch("_idx"))
    else if !idx.n.Int? then Failure(Error(ValueError, "List index must be an integer"))
    else if idx.n.i < 0 then Failure(Error(ValueError, "Negative index not allowed here"))
    else if idx.n.i >= size then Undefined
    else Success(idx.n.i)
  }

  /** The index checks of `Set` with the bound check restored. */
  function SetIndexCheck(size: nat, idx: Value): (r: Result<nat, Error>)
    ensures r.Ok? ==> r.value < size
  {
    if !idx.Num? then Err(TypeMismatch("_idx"))
    else if !idx.n.Int? then Err(Error(ValueError, "List index must be an integer"))
    else if idx.n.i < 0 then Err(Error(ValueError, "Negative index not allowed here"))
    else if idx.n.i >= size then Err(Error(RuntimeError, "List index out of range"))
    else Ok(idx.n.i)
  }

  /** `set(lst, 1, v)` on a one-element list writes past the end as written. */
  lemma SetPastTheEnd(v: Value)
    ensures SetIndexCheckAsWritten(1, Num(Int(1))) == Undefined
    ensures SetIndexCheck(1, Num(Int(1))).Err?
  {
  }

  lemma SetIndexCheckAgrees(size: nat, idx: Value)
    ensures SetIndexCheckAsWritten(size, idx) != Undefined ==>
              match SetIndexCheckAsWritten(size, idx)
              case Success(j) => SetIndexCheck(size, idx) == Ok(j)
              case Failure(e) => SetIndexCheck(size, idx) == Err(e)
              case _ => false
  {
  }

  /** The builtin `set`, with the bound check restored: replaces the indexed element in
      place and nothing else. */
  method Set(lst: Value, idx: Value, newValue: Value) returns (r: Result<Value, Error>)
    modifies if lst.ListVal? then {lst.list} else {}
    ensures !lst.ListVal? ==> r == Err(TypeMismatch("_lst"))
    ensures lst.ListVal? ==>
              match SetIndexCheck(|old(lst.list.elements)|, idx)
              case Ok(j) => r == Ok(Null) && lst.list.elements == old(lst.list.elements)[j := newValue]
              case Err(e) => r == Err(e) && lst.list.elements == old(lst.list.elements)
  {
    if !lst.ListVal? {
      return Err(TypeMismatch("_lst"));
    }
    var check := SetIndexCheck(|lst.list.elements|, idx);
    if check.Err? {
      return Err(check.error);
    }
    lst.list.elements := lst.list.elements[check.value := newValue];
    r := Ok(Null);
  }

  // ---------------------------------------------------------------------------------
  // range
  // ---------------------------------------------------------------------------------

  /** The integers from `a` up to, not including, `b`, in steps of `c`. */
  function Steps(a: int, b: int, c: int): seq<int>
    requires c > 0
    decreases b - a
  {
    if a >= b then [] else [a] + Steps(a + c, b, c)
  }

  /** The k-th element is `a + k * c`; all lie below `b` and the next step would not. */
  lemma {:induction false} StepsSpec(a: int, b: int, c: int)
    requires c > 0
    ensures forall k :: 0 <= k < |Steps(a, b, c)| ==> Steps(a, b, c)[k] == a + k * c && Steps(a, b, c)[k] < b
    ensures a + |Steps(a, b, c)| * c >= b
    ensures a < b ==> a + (|Steps(a, b, c)| - 1) * c < b
    decreases b - a
  {
    if a < b {
      StepsSpec(a + c, b, c);
      var s := Steps(a, b, c);
      forall k | 0 <= k < |s| ensures s[k] == a + k * c {
        if k > 0 {
          assert s[k] == Steps(a + c, b, c)[k - 1];
        }
      }
    }
  }

  function Numbers(xs: seq<int>): (vs: seq<Value>)
    ensures |vs| == |xs| && forall k :: 0 <= k < |xs| ==> vs[k] == Num(Int(xs[k]))
  {
    if xs == [] then [] else [Num(Int(xs[0]))] + Numbers(xs[1..])
  }

  /** The argument check of `range`: a Number holding a non-negative int. */
  function RangeArgument(v: Value): Result<int, Error> {
    if !v.Num? then Err(Error(TypeError, "range() requires number as parameters"))
    else if !v.n.Int? || v.n.i < 0 then Err(Error(ValueError, "range(x) requires an positive integer"))
    else Ok(v.n.i)
  }

  /** `List_::Range`: `range(a)` counts from 0 to `a`, `range(a, b)` from `a` to `b` and
      `range(a, b, c)` in steps of `c`; a zero step with `a < b` never ends. */
  method Range(a: Value, b: Option<Value>, c: Option<Value>) returns (r: Outcome<ListObject>)
    requires c.Some? ==> b.Some?
    ensures RangeArgument(a).Err? ==> r == Failure(RangeArgument(a).error)
    ensures RangeArgument(a).Ok? && b.None? ==>
              r.Success? && fresh(r.value) && r.value.elements == Numbers(Steps(0, RangeArgument(a).value, 1))
    ensures RangeArgument(a).Ok? && b.Some? && RangeArgument(b.value).Err? ==> r == Failure(RangeArgument(b.value).error)
    ensures RangeArgument(a).Ok? && b.Some? && RangeArgument(b.value).Ok? && c.None? ==>
              r.Success? && fresh(r.value) &&
              r.value.elements == Numbers(Steps(RangeArgument(a).value, RangeArgument(b.value).value, 1))
    ensures RangeArgument(a).Ok? && b.Some? && RangeArgument(b.value).Ok? && c.Some? ==>
              var (x, y) := (RangeArgument(a).value, RangeArgument(b.value).value);
              match RangeArgument(c.value)
              case Err(e) => r == Failure(e)
              case Ok(0) => if x < y then r == Diverges else r.Success? && fresh(r.value) && r.value.elements == []
              case Ok(step) => r.Success? && fresh(r.value) && r.value.elements == Numbers(Steps(x, y, step))
  {
    var first := RangeArgument(a);
    if first.Err? {
      return Failure(first.error);
    }
    if b.None? {
      var elements := Count(0, first.value, 1);
      var lst := new ListObject(elements);
      return Success(lst);
    }
    var second := RangeArgument(b.value);
    if second.Err? {
      return Failure(second.error);
    }
    if c.None? {
      var elements := Count(first.value, second.value, 1);
      var lst := new ListObject(elements);
      return Success(lst);
    }
    var third := RangeArgument(c.value);
    if third.Err? {
      return Failure(third.error);
    }
    if third.value == 0 {
      if first.value < second.value {
        return Diverges;
      }
      var lst := new ListObject([]);
      return Success(lst);
    }
    var elements := Count(first.value, second.value, third.value);
    var lst := new ListObject(elements);
    r := Success(lst);
  }

  /** The counting loop of `range`. */
  method Count(a: int, b: int, c: int) returns (iter: seq<Value>)
    requires c > 0
    ensures iter == Numbers(Steps(a, b, c))
  {
    var done: seq<int> := [];
    var i := a;
    while i < b
      invariant Steps(a, b, c) == done + Steps(i, b, c)
      decreases b - i
    {
      done := done + [i];
      i := i + c;
    }
    assert done + [] == done;
    iter := Numbers(done);
  }

  // ---------------------------------------------------------------------------------
  // Environment variables
  // ---------------------------------------------------------------------------------

  /** `requiredEnvVars`, in the map's key order. */
  const RequiredEnvVars: seq<(string, string)> := [
    ("builtins-import-path", "builtins/"),
    ("native-lib-path", "lib/"),
    ("version", "2.0")
  ]

  /** `vars` completed with the default of every required key it lacks. */
  function WithDefaults(vars: map<string, string>, required: seq<(string, string)>): map<string, string>
    decreases |required|
  {
    if required == [] then vars
    else
      var (k, v) := required[0];
      WithDefaults(if k in vars then vars else vars[k := v], required[1..])
  }

  /** Defaults fill in only missing keys: a key already set keeps its value, every
      required key ends up set, and no other key appears. */
  lemma {:induction false} WithDefaultsSpec(vars: map<string, string>, required: seq<(string, string)>)
    ensures forall k :: k in vars ==> k in WithDefaults(vars, required) && WithDefaults(vars, required)[k] == vars[k]
    ensures forall i :: 0 <= i < |required| ==> required[i].0 in WithDefaults(vars, required)
    ensures forall k :: k in WithDefaults(vars, required) ==> k in vars || exists i :: 0 <= i < |required| && required[i].0 == k
    decreases |required|
  {
    if required != [] {
      var (k, v) := required[0];
      var next := if k in vars then vars else vars[k := v];
      WithDefaultsSpec(next, required[1..]);
      forall j | 0 <= j < |required| ensures required[j].0 in WithDefaults(vars, required) {
        if j > 0 {
          assert required[1..][j - 1] == required[j];
        }
      }
      forall key | key in WithDefaults(vars, required)
        ensures key in vars || exists i :: 0 <= i < |required| && required[i].0 == key
      {
        if key !in vars && key != k {
          var i :| 0 <= i < |required[1..]| && required[1..][i].0 == key;
          assert required[i + 1].0 == key;
        }
      }
    }
  }

  /** Filling in defaults a second time changes nothing. */
  lemma {:induction false} WithDefaultsIdempotent(vars: map<string, string>, required: seq<(string, string)>)
    ensures WithDefaults(WithDefaults(vars, required), required) == WithDefaults(vars, required)
  {
    var once := WithDefaults(vars, required);
    WithDefaultsSpec(vars, required);
    WithDefaultsKeepsSet(once, required);
  }

  lemma {:induction false} WithDefaultsKeepsSet(vars: map<string, string>, required: seq<(string, string)>)
    requires forall i :: 0 <= i < |required| ==> required[i].0 in vars
    ensures WithDefaults(vars, required) == vars
    decreases |required|
  {
    if required != [] {
      forall i | 0 <= i < |required[1..]| ensures required[1..][i].0 in vars {
        assert required[1..][i] == required[i + 1];
      }
      WithDefaultsKeepsSet(vars, required[1..]);
    }
  }

  /** The interpreter's environment variables, `envVars`. */
  class EnvVars {
    var vars: map<string, string>

    /** `AllocEnvVars`. */
    constructor ()
      ensures vars == map[]
    {
      vars := map[];
    }

    /** `HasEnvVar`. */
    method Has(key: string) returns (r: bool)
      ensures r <==> key in vars
    {
      r := key in vars;
    }

    /** `SetEnvVar`: insert or overwrite. */
    method Set(key: string, val: string)
      modifies this
      ensures vars == old(vars)[key := val]
    {
      vars := vars[key := val];
    }

    /** `GetEnvVar`: the value, or `None` where the source aborts on a missing key. */
    method Get(key: string) returns (r: Option<string>)
      ensures key in vars <==> r.Some?
      ensures r.Some? ==> r.value == vars[key]
    {
      var present := Has(key);
      if !present {
        return None;
      }
      r := Some(vars[key]);
    }

    /** The default-filling loop at the end of `RestoreEnvVar`. */
    method FillDefaults()
      modifies this
      ensures vars == WithDefaults(old(vars), RequiredEnvVars)
    {
      var i := 0;
      while i < |RequiredEnvVars|
        invariant 0 <= i <= |RequiredEnvVars|
        invariant WithDefaults(old(vars), RequiredEnvVars) == WithDefaults(vars, RequiredEnvVars[i..])
      {
        var (requiredKey, defaultVal) := RequiredEnvVars[i];
        assert RequiredEnvVars[i..][1..] == RequiredEnvVars[i + 1..];
        var present := Has(requiredKey);
        if !present {
          Set(requiredKey, defaultVal);
        }
        i := i + 1;
      }
    }
  }

  // ---------------------------------------------------------------------------------
  // import and require
  // ---------------------------------------------------------------------------------

  /** What `import` goes on to do: interpret a whole module into the caller's scope, or
      fetch one symbol from a `.yan` file. */
  datatype ImportPlan = UseModule(name: string) | ImportSymbol(file: string, symbol: string)

  /** The name-shape rules of `builtins::Import` (yan-lang.hpp:4663-4704). A name with no
      piece between dots makes `Split` build a `std::string` from a null pointer
      (`Undefined`). */
  function ImportShape(arg: Value): Outcome<ImportPlan> {
    if !arg.Str? then Failure(TypeMismatch("_symbol"))
    else if StartsWith(arg.s, "@") then Failure(Error(ValueError, "'import' does not support to load an native implementation"))
    else
      var pieces := Pieces(arg.s, Delims("."));
      if pieces == [] then Undefined
      else if |pieces| != 1 && |pieces| != 2 then Failure(Error(ValueError, "Invilid import specification"))
      else if |pieces| == 2 then Success(ImportSymbol(pieces[0] + ".yan", pieces[1]))
      else Success(UseModule(pieces[0]))
  }

  /** What `require` goes on to do: import a whole `.yan` module, or load one symbol of a
      native library. */
  datatype RequirePlan = ImportModule(file: string) | NativeSymbol(library: string, symbol: string)

  /** The name-shape rules of `builtins::Require` (yan-lang.hpp:4706-4741). */
  function RequireShape(arg: Value): Outcome<RequirePlan> {
    if !arg.Str? then Failure(TypeMismatch("_module"))
    else if !StartsWith(arg.s, "@") then Success(ImportModule(arg.s + ".yan"))
    else
      var pieces := Pieces(arg.s[1..], Delims("."));
      if pieces == [] then Undefined
      else if |pieces| != 2 then Failure(Error(ValueError, "Invilid symbol location"))
      else Success(NativeSymbol(pieces[0], pieces[1]))
  }

  /** Dot-free, non-empty segments. */
  predicate Segments(parts: seq<string>) {
    forall i :: 0 <= i < |parts| ==> IsPiece(parts[i], Delims("."))
  }

  /** A dotted name of one segment imports a module, of two segments one symbol, of more
      segments nothing. */
  lemma ImportOfDottedName(parts: seq<string>)
    requires parts != [] && Segments(parts) && !StartsWith(parts[0], "@")
    ensures var r := ImportShape(Str(Join(parts, ".")));
            (|parts| == 1 ==> r == Success(UseModule(parts[0]))) &&
            (|parts| == 2 ==> r == Success(ImportSymbol(parts[0] + ".yan", parts[1]))) &&
            (|parts| > 2 ==> r.Failure? && r.error.kind == ValueError)
  {
    assert '.' in Delims(".");
    PiecesOfJoin(parts, '.', Delims("."));
    JoinStartsWithFirst(parts, ".");
  }

  /** Empty segments do not count: `a..b` and `.a.b.` import like `a.b`. */
  lemma ImportIgnoresEmptySegments()
    ensures ImportShape(Str("a..b")) == ImportShape(Str("a.b")) == Success(ImportSymbol("a.yan", "b"))
  {
    var d := Delims(".");
    assert '.' in d && 'a' !in d && 'b' !in d;
    assert Pieces("b", d) == ["b"] by {
      RunLenUnique("b", d, 1);
      assert "b"[..1] == "b" && "b"[1..] == [];
    }
    assert Pieces(".b", d) == ["b"] by { assert ".b"[1..] == "b"; }
    assert Pieces("..b", d) == ["b"] by { assert "..b"[1..] == ".b"; }
    assert Pieces("a..b", d) == ["a", "b"] by {
      RunLenUnique("a..b", d, 1);
      assert "a..b"[..1] == "a" && "a..b"[1..] == "..b";
    }
    assert Pieces("a.b", d) == ["a", "b"] by {
      RunLenUnique("a.b", d, 1);
      assert "a.b"[..1] == "a" && "a.b"[1..] == ".b";
    }
    assert !StartsWith("a..b", "@") && !StartsWith("a.b", "@");
    assert "a" + ".yan" == "a.yan";
  }

  /** A name made only of dots (or empty) has no piece at all. */
  lemma ImportOfDotsOnly(s: string)
    requires forall k :: 0 <= k < |s| ==> s[k] == '.'
    ensures ImportShape(Str(s)) == Undefined
  {
    PiecesEmptyIff(s, Delims("."));
    if |s| > 0 {
      assert s[0] == '.';
    }
  }

  /** `require '@m.s'` loads symbol `s` of native module `m`; any other number of
      segments after the `@` is a ValueError. */
  lemma RequireOfNativeName(parts: seq<string>)
    requires parts != [] && Segments(parts)
    ensures var r := RequireShape(Str("@" + Join(parts, ".")));
            (|parts| == 2 ==> r == Success(NativeSymbol(parts[0], parts[1]))) &&
            (|parts| != 2 ==> r.Failure? && r.error.kind == ValueError)
  {
    assert '.' in Delims(".");
    PiecesOfJoin(parts, '.', Delims("."));
    assert ("@" + Join(parts, "."))[1..] == Join(parts, ".");
  }

  /** A name without `@` is always a module file. */
  lemma RequireOfPlainName(s: string)
    requires !StartsWith(s, "@")
    ensures RequireShape(Str(s)) == Success(ImportModule(s + ".yan"))
  {
  }

  lemma {:induction false} JoinStartsWithFirst(parts: seq<string>, sep: string)
    requires parts != []
    ensures |parts[0]| > 0 ==> Join(parts, sep)[..1] == parts[0][..1]
    ensures |parts[0]| > 0 ==> (StartsWith(Join(parts, sep), "@") <==> StartsWith(parts[0], "@"))
  {
    if |parts[0]| > 0 && |parts| > 1 {
      assert Join(parts, sep) == parts[0] + (sep + Join(parts[1..], sep));
    }
  }
}
