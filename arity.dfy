/** How a call matches arguments to parameters (yan-lang.hpp:3695-3819, 3882-3916 and
    4875-4993): exact arity for plain functions, a trailing mutable `_x_` parameter that
    collects the remaining arguments, methods whose first parameter is the receiver, and
    builtins whose `__x__` parameters are optional. */
module Arity {
  import opened Common
  import opened Values
  import opened Symbols

  /** A mutable parameter: one underscore on each side, not two. */
  predicate IsMutableName(n: string) {
    StartsWith(n, "_") && EndsWith(n, "_") && !StartsWith(n, "__") && !EndsWith(n, "__")
  }

  /** An optional builtin parameter: two underscores on each side. */
  predicate IsOptionalName(n: string) {
    StartsWith(n, "__") && EndsWith(n, "__")
  }

  /** The mutable parameters, in declaration order. */
  function MutableNames(names: seq<string>): (m: seq<string>)
    ensures |m| <= |names|
    ensures forall k :: 0 <= k < |m| ==> IsMutableName(m[k])
  {
    if names == [] then []
    else MutableNames(names[..|names| - 1]) + (if IsMutableName(names[|names| - 1]) then [names[|names| - 1]] else [])
  }

  /** Number of parameters a builtin cannot do without. */
  function RequiredCount(names: seq<string>): (n: nat)
    ensures n <= |names|
  {
    if names == [] then 0
    else RequiredCount(names[..|names| - 1]) + (if IsOptionalName(names[|names| - 1]) then 0 else 1)
  }

  /** The result of `Function::CheckMutableArgument`'s scan: no mutable parameter, or the
      one mutable parameter, which must come last. */
  function MutableCheck(names: seq<string>): Result<Option<string>, Error> {
    var m := MutableNames(names);
    if |m| == 0 then Ok(None)
    else if |m| > 1 then Err(Error(RuntimeError, "Too many mutable arguments"))
    else if names[|names| - 1] != m[0] then Err(Error(RuntimeError, "Mutable argument appeared before positional arguments"))
    else Ok(Some(m[0]))
  }

  /** `FunctionBase::CheckArguments`: exactly as many arguments as parameters. */
  function ExactCheck(names: seq<string>, argc: nat): Result<Option<string>, Error> {
    if argc > |names| then Err(Error(TypeError, "Too many arguments given to function"))
    else if argc < |names| then Err(Error(TypeError, "Too few arguments given to function"))
    else Ok(None)
  }

  /** `Function::CheckArguments`. */
  function FunctionCheck(names: seq<string>, argc: nat): Result<Option<string>, Error> {
    match MutableCheck(names)
    case Err(e) => Err(e)
    case Ok(None) => ExactCheck(names, argc)
    case Ok(Some(m)) =>
      if argc < |names| - 1 then Err(Error(RuntimeError, "Too few arguments given to function"))
      else Ok(Some(m))
  }

  /** The last parameter is the only mutable one. */
  predicate TrailingMutable(names: seq<string>) {
    |names| > 0 && IsMutableName(names[|names| - 1]) && MutableNames(names[..|names| - 1]) == []
  }

  lemma {:induction false} NoMutableNames(names: seq<string>)
    ensures MutableNames(names) == [] <==> forall k :: 0 <= k < |names| ==> !IsMutableName(names[k])
  {
    if names != [] {
      NoMutableNames(names[..|names| - 1]);
      assert forall k :: 0 <= k < |names| - 1 ==> names[..|names| - 1][k] == names[k];
    }
  }

  /** The scan's verdict in terms of the parameter list: no mutable parameter, a single
      trailing one, or a RuntimeError. */
  lemma MutableCheckCases(names: seq<string>)
    ensures MutableNames(names) == [] ==> MutableCheck(names) == Ok(None)
    ensures TrailingMutable(names) <==> MutableCheck(names).Ok? && MutableCheck(names).value.Some?
    ensures TrailingMutable(names) ==> MutableCheck(names) == Ok(Some(names[|names| - 1]))
    ensures MutableCheck(names).Err? ==> MutableCheck(names).error.kind == RuntimeError
  {
    if names != [] {
      var last := names[|names| - 1];
      var prefix := MutableNames(names[..|names| - 1]);
      if IsMutableName(last) {
        assert MutableNames(names) == prefix + [last];
      } else {
        assert MutableNames(names) == prefix;
      }
    }
  }

  /** A plain function accepts exactly as many arguments as it has parameters; one whose
      last parameter is its only mutable one accepts any number from one fewer on; any
      other placement of mutable parameters fails whatever the arguments. */
  lemma FunctionCheckSpec(names: seq<string>, argc: nat)
    ensures MutableNames(names) == [] ==>
              (FunctionCheck(names, argc).Ok? <==> argc == |names|) &&
              (FunctionCheck(names, argc).Err? ==> FunctionCheck(names, argc).error.kind == TypeError)
    ensures TrailingMutable(names) ==>
              (FunctionCheck(names, argc).Ok? <==> argc >= |names| - 1) &&
              (FunctionCheck(names, argc).Ok? ==> FunctionCheck(names, argc).value == Some(names[|names| - 1]))
    ensures MutableNames(names) != [] && !TrailingMutable(names) ==>
              FunctionCheck(names, argc).Err? && FunctionCheck(names, argc).error.kind == RuntimeError
  {
    MutableCheckCases(names);
  }

  /** `Method::CheckArguments` followed by the length check of `Method::PopulateArguments`,
      with the empty parameter list rejecting arguments and a mutable receiver rejected as
      a misplaced mutable parameter (see `MethodCheckAsWritten`). */
  function MethodCheck(names: seq<string>, argc: nat): Result<Option<string>, Error> {
    match MutableCheck(names)
    case Err(e) => Err(e)
    case Ok(mutable) =>
      if argc + 1 < |names| then Err(Error(RuntimeError, "Too few arguments given to method"))
      else if |names| == 0 then
        (if argc == 0 then Ok(None) else Err(Error(TypeError, "Invilid argument sequence length of method")))
      else if |names| == 1 && mutable.Some? then
        Err(Error(RuntimeError, "Mutable argument cannot receive the method's receiver"))
      else if (mutable.Some? && argc < |names| - 1) || (mutable.None? && argc != |names| - 1) then
        Err(Error(TypeError, "Invilid argument sequence length of method"))
      else Ok(mutable)
  }

  /** The length checks of a method call AS WRITTEN; `None` stands for a read out of
      bounds. With no parameters, `Method::PopulateArguments` goes on to
      `FunctionBase::PopulateArguments`, which reads `argNames[i]` for every argument.
      With a mutable parameter only, the receiver is bound to it and
      `Function::PopulateArguments` gets an empty list: its loop bound
      `argNames.size() - 1` wraps around, so it reads `argNames[0]` and `args[0]`. */
  function MethodCheckAsWritten(names: seq<string>, argc: nat): Option<Result<Option<string>, Error>> {
    match MutableCheck(names)
    case Err(e) => Some(Err(e))
    case Ok(mutable) =>
      if argc + 1 < |names| then Some(Err(Error(RuntimeError, "Too few arguments given to method")))
      else if |names| == 0 then (if argc == 0 then Some(Ok(None)) else None)
      else if |names| == 1 && mutable.Some? then None
      else if (mutable.Some? && argc < |names| - 1) || (mutable.None? && argc != |names| - 1) then
        Some(Err(Error(TypeError, "Invilid argument sequence length of method")))
      else Some(Ok(mutable))
  }

  /** A method without parameters called with one argument reads past its parameter list;
      the corrected check rejects the call. */
  lemma MethodWithoutParametersOverreads()
    ensures MethodCheckAsWritten([], 1) == None
    ensures MethodCheck([], 1).Err? && MethodCheck([], 1).error.kind == TypeError
  {
  }

  /** A method whose only parameter is mutable reads past the empty list of remaining
      parameters, whatever the arguments; the corrected check reports a RuntimeError. */
  lemma MethodWithMutableReceiverOverreads(argc: nat)
    ensures MethodCheckAsWritten(["_x_"], argc) == None
    ensures MethodCheck(["_x_"], argc).Err? && MethodCheck(["_x_"], argc).error.kind == RuntimeError
  {
    var x: string := "_x_";
    assert x[..1] == "_" && x[2..] == "_";
    assert x[..2][1] != '_' && x[1..][0] != '_';
    assert IsMutableName(x);
    assert MutableNames([x]) == [x] by {
      var names: seq<string> := [x];
      assert names[..0] == [];
    }
  }

  /** Wherever the check as written is defined, the corrected one agrees with it; it is
      undefined exactly for arguments passed to a method without parameters and for any
      call of a method whose only parameter is mutable. */
  lemma MethodCheckAgrees(names: seq<string>, argc: nat)
    ensures MethodCheckAsWritten(names, argc).Some? ==> MethodCheckAsWritten(names, argc).value == MethodCheck(names, argc)
    ensures MethodCheckAsWritten(names, argc).None? <==>
              (|names| == 0 && argc > 0) || (|names| == 1 && IsMutableName(names[0]))
  {
    MutableCheckCases(names);
    if |names| == 1 {
      assert names[..0] == [];
    }
  }

  /** A method's first parameter receives the receiver: without a mutable parameter it
      takes exactly one argument per remaining parameter; with a trailing mutable one
      after the receiver it takes at least one per remaining positional parameter; a
      mutable receiver is a RuntimeError. */
  lemma MethodCheckSpec(names: seq<string>, argc: nat)
    requires |names| > 0
    ensures MutableNames(names) == [] ==>
              (MethodCheck(names, argc).Ok? <==> argc == |names| - 1) &&
              (argc < |names| - 1 ==> MethodCheck(names, argc).error.kind == RuntimeError) &&
              (argc > |names| - 1 ==> MethodCheck(names, argc).error.kind == TypeError)
    ensures TrailingMutable(names) && |names| > 1 ==>
              (MethodCheck(names, argc).Ok? <==> argc >= |names| - 1) &&
              (MethodCheck(names, argc).Ok? ==> MethodCheck(names, argc).value == Some(names[|names| - 1]))
    ensures TrailingMutable(names) && |names| == 1 ==>
              MethodCheck(names, argc).Err? && MethodCheck(names, argc).error.kind == RuntimeError
  {
    MutableCheckCases(names);
  }

  /** The loop of `Function::CheckMutableArgument`: the mutable parameters in order. */
  method CollectMutableNames(names: seq<string>) returns (mutableNames: seq<string>)
    ensures mutableNames == MutableNames(names)
  {
    mutableNames := [];
    var i := 0;
    while i < |names|
      invariant 0 <= i <= |names|
      invariant mutableNames == MutableNames(names[..i])
    {
      assert names[..i + 1][..i] == names[..i];
      if IsMutableName(names[i]) {
        mutableNames := mutableNames + [names[i]];
      }
      i := i + 1;
    }
    assert names[..|names|] == names;
  }

  /** `Function::CheckMutableArgument`: collect the mutable parameters, then accept none
      or a single trailing one. */
  method CheckMutableArgument(names: seq<string>) returns (r: Result<Option<string>, Error>)
    ensures r == MutableCheck(names)
    ensures r.Ok? && r.value.Some? ==> TrailingMutable(names) && r.value.value == names[|names| - 1]
  {
    var mutableNames := CollectMutableNames(names);
    if |mutableNames| == 0 {
      r := Ok(None);
    } else if |mutableNames| > 1 {
      r := Err(Error(RuntimeError, "Too many mutable arguments"));
    } else if names[|names| - 1] != mutableNames[0] {
      r := Err(Error(RuntimeError, "Mutable argument appeared before positional arguments"));
    } else {
      r := Ok(Some(mutableNames[0]));
    }
    assert r == MutableCheck(names);
    MutableCheckCases(names);
  }

  /** `BuiltinFunction::CheckArguments`: counts the parameters and the required ones, and
      accepts exactly the argument counts between the two. */
  method CheckBuiltinArguments(names: seq<string>, argc: nat) returns (r: Result<(), Error>)
    ensures r.Ok? <==> RequiredCount(names) <= argc <= |names|
    ensures r.Err? ==> r.error.kind == TypeError
  {
    var expectedMost, expectedLeast := 0, 0;
    var i := 0;
    while i < |names|
      invariant 0 <= i <= |names|
      invariant expectedMost == i && expectedLeast == RequiredCount(names[..i])
    {
      assert names[..i + 1][..i] == names[..i];
      expectedMost := expectedMost + 1;
      if !StartsWith(names[i], "__") || !EndsWith(names[i], "__") {
        expectedLeast := expectedLeast + 1;
      }
      i := i + 1;
    }
    assert names[..|names|] == names;
    if argc > expectedMost {
      return Err(Error(TypeError, "Too many arguments given to function"));
    } else if argc < expectedLeast {
      return Err(Error(TypeError, "Too few arguments given to function"));
    }
    r := Ok(());
  }

  /** `builtinFuncParamsRegistry` (yan-lang.hpp:4875-4906): the parameter names of each
      builtin. */
  function BuiltinParams(name: string): Option<seq<string>> {
    match name
    case "print" => Some(["_str"])
    case "println" => Some(["_str"])
    case "typeof" => Some(["_object"])
    case "len" => Some(["_seq"])
    case "parseInt" => Some(["_str"])
    case "parseFloat" => Some(["_str"])
    case "str" => Some(["_object"])
    case "eval" => Some(["_code"])
    case "sin" => Some(["_x"])
    case "cos" => Some(["_x"])
    case "tan" => Some(["_x"])
    case "abs" => Some(["_x"])
    case "log" => Some(["_x"])
    case "ln" => Some(["_x"])
    case "sqrt" => Some(["_x"])
    case "input" => Some(["__prompt__"])
    case "import" => Some(["_symbol"])
    case "set" => Some(["_lst", "_idx", "_value"])
    case "require" => Some(["_module"])
    case "readFile" => Some(["_filename"])
    case "writeFile" => Some(["_filename", "_str", "__mode__"])
    case "append" => Some(["_lst", "_o"])
    case "concat" => Some(["_lst1", "_lst2"])
    case "remove" => Some(["_lst", "_idx"])
    case "panic" => Some(["_err"])
    case "isFloating" => Some(["_num"])
    case "isInteger" => Some(["_num"])
    case "del" => Some(["_varName"])
    case "range" => Some(["_a", "__b__", "__c__"])
    case "addressOf" => Some(["_object"])
    case _ => None
  }

  /** `range` takes one to three arguments, `input` none or one, `writeFile` two or
      three, and `set` exactly three. */
  lemma BuiltinArities()
    ensures RequiredCount(BuiltinParams("range").value) == 1 && |BuiltinParams("range").value| == 3
    ensures RequiredCount(BuiltinParams("input").value) == 0 && |BuiltinParams("input").value| == 1
    ensures RequiredCount(BuiltinParams("writeFile").value) == 2 && |BuiltinParams("writeFile").value| == 3
    ensures RequiredCount(BuiltinParams("set").value) == 3 && |BuiltinParams("set").value| == 3
  {
    RangeArity();
    InputArity();
    WriteFileArity();
    SetArity();
  }

  lemma RangeArity()
    ensures RequiredCount(BuiltinParams("range").value) == 1 && |BuiltinParams("range").value| == 3
  {
    RangeParams();
    RangeRequired();
  }

  lemma RangeParams()
    ensures BuiltinParams("range") == Some(["_a", "__b__", "__c__"])
  {
  }

  lemma RangeRequired()
    ensures RequiredCount(["_a", "__b__", "__c__"]) == 1
  {
    RequiredOfThree("_a", "__b__", "__c__");
    RequiredByChars("_a");
    RequiredByChars("__b__");
    RequiredByChars("__c__");
  }

  lemma InputArity()
    ensures RequiredCount(BuiltinParams("input").value) == 0 && |BuiltinParams("input").value| == 1
  {
    InputParams();
    InputRequired();
  }

  lemma InputParams()
    ensures BuiltinParams("input") == Some(["__prompt__"])
  {
  }

  lemma InputRequired()
    ensures RequiredCount(["__prompt__"]) == 0
  {
    assert ["__prompt__"][..0] == [];
    RequiredByChars("__prompt__");
  }

  lemma WriteFileArity()
    ensures RequiredCount(BuiltinParams("writeFile").value) == 2 && |BuiltinParams("writeFile").value| == 3
  {
    WriteFileParams();
    WriteFileRequired();
  }

  lemma WriteFileParams()
    ensures BuiltinParams("writeFile") == Some(["_filename", "_str", "__mode__"])
  {
  }

  lemma WriteFileRequired()
    ensures RequiredCount(["_filename", "_str", "__mode__"]) == 2
  {
    RequiredOfThree("_filename", "_str", "__mode__");
    RequiredByChars("_filename");
    RequiredByChars("_str");
    RequiredByChars("__mode__");
  }

  lemma SetArity()
    ensures RequiredCount(BuiltinParams("set").value) == 3 && |BuiltinParams("set").value| == 3
  {
    SetParams();
    SetRequired();
  }

  lemma SetParams()
    ensures BuiltinParams("set") == Some(["_lst", "_idx", "_value"])
  {
  }

  lemma SetRequired()
    ensures RequiredCount(["_lst", "_idx", "_value"]) == 3
  {
    RequiredOfThree("_lst", "_idx", "_value");
    RequiredByChars("_lst");
    RequiredByChars("_idx");
    RequiredByChars("_value");
  }

  /** Whether a name of at least two characters is optional, read off its first two and
      last two characters. */
  lemma RequiredByChars(n: string)
    requires |n| >= 2
    ensures Required(n) == if n[0] == '_' && n[1] == '_' && n[|n| - 2] == '_' && n[|n| - 1] == '_' then 0 else 1
  {
    var k := |n|;
    assert n[..2] == [n[0], n[1]];
    assert n[k - 2..] == [n[k - 2], n[k - 1]];
  }

  function Required(name: string): nat {
    if IsOptionalName(name) then 0 else 1
  }

  lemma RequiredOfThree(a: string, b: string, c: string)
    ensures RequiredCount([a, b, c]) == Required(a) + Required(b) + Required(c)
  {
    assert [a][..0] == [];
    assert RequiredCount([a]) == Required(a);
    assert [a, b][..1] == [a];
    assert RequiredCount([a, b]) == Required(a) + Required(b);
    assert [a, b, c][..2] == [a, b];
  }

  // ---------------------------------------------------------------------------------
  // Binding the arguments
  // ---------------------------------------------------------------------------------

  /** The scope after binding `names[k]` to `args[k]` in order (a later duplicate name
      overwrites an earlier one). */
  function BindAll(m: map<string, Value>, names: seq<string>, args: seq<Value>): map<string, Value>
    requires |args| <= |names|
    decreases |args|
  {
    if args == [] then m
    else BindAll(m[names[0] := args[0]], names[1..], args[1..])
  }

  /** A name bound by none of the first `|args|` parameters keeps its old binding. */
  lemma {:induction false} BindAllKeeps(m: map<string, Value>, names: seq<string>, args: seq<Value>, n: string)
    requires |args| <= |names|
    requires forall j :: 0 <= j < |args| ==> names[j] != n
    ensures n in BindAll(m, names, args) <==> n in m
    ensures n in m ==> BindAll(m, names, args)[n] == m[n]
    decreases |args|
  {
    if args != [] {
      var tail := names[1..];
      forall j | 0 <= j < |args| - 1 ensures tail[j] != n {
        assert tail[j] == names[j + 1];
      }
      BindAllKeeps(m[names[0] := args[0]], tail, args[1..], n);
    }
  }

  /** A parameter that no later parameter repeats holds its own argument. */
  lemma {:induction false} BindAllBinds(m: map<string, Value>, names: seq<string>, args: seq<Value>, k: nat)
    requires |args| <= |names| && k < |args|
    requires forall j :: k < j < |args| ==> names[j] != names[k]
    ensures names[k] in BindAll(m, names, args) && BindAll(m, names, args)[names[k]] == args[k]
    decreases |args|
  {
    var tail := names[1..];
    if k == 0 {
      forall j | 0 <= j < |args| - 1 ensures tail[j] != names[0] {
        assert tail[j] == names[j + 1];
      }
      BindAllKeeps(m[names[0] := args[0]], tail, args[1..], names[0]);
    } else {
      forall j | k - 1 < j < |args| - 1 ensures tail[j] != tail[k - 1] {
        assert tail[j] == names[j + 1];
      }
      BindAllBinds(m[names[0] := args[0]], tail, args[1..], k - 1);
    }
  }

  /** The name a mutable parameter `_x_` is bound under: `x`. */
  function Unwrapped(n: string): string {
    if |n| >= 2 then n[1..|n| - 1] else ""
  }

  /** `FunctionBase::PopulateArguments` and `Function::PopulateArguments`: binds each
      positional parameter to its argument in `table` and, with a mutable parameter, binds
      its unwrapped name to a new list of the remaining arguments. */
  method PopulateArguments(table: SymbolTable, names: seq<string>, args: seq<Value>, mutable: Option<string>)
      returns (rest: ListObject?)
    requires table.Valid()
    requires mutable.None? ==> |args| <= |names|
    requires mutable.Some? ==> |names| > 0 && |args| >= |names| - 1
    modifies table
    ensures table.Valid() && table.Repr == old(table.Repr) && table.parent == old(table.parent)
    ensures mutable.None? ==> rest == null && table.symbols == BindAll(old(table.symbols), names, args)
    ensures mutable.Some? ==>
              rest != null && fresh(rest) && rest.elements == args[|names| - 1..] &&
              table.symbols == BindAll(old(table.symbols), names, args[..|names| - 1])[Unwrapped(mutable.value) := ListVal(rest)]
  {
    var count := if mutable.None? then |args| else |names| - 1;
    var i := 0;
    while i < count
      invariant 0 <= i <= count
      invariant table.Valid() && table.Repr == old(table.Repr) && table.parent == old(table.parent)
      invariant BindAll(old(table.symbols), names, args[..count]) == BindAll(table.symbols, names[i..], args[i..count])
    {
      assert args[i..count][1..] == args[i + 1..count] && names[i..][1..] == names[i + 1..];
      table.Set(names[i], args[i]);
      i := i + 1;
    }
    assert args[count..count] == [];
    if mutable.None? {
      assert args[..count] == args;
      return null;
    }
    rest := new ListObject(args[count..]);
    table.Set(Unwrapped(mutable.value), ListVal(rest));
  }
}
