/** The native `string` module (yan-lang's `yan-libstring.cpp`): substring, replace,
    insert, printf-style formatting, prefix and suffix tests, splitting and exploding a
    string into characters. Strings are sequences of characters; the source widens them
    with `ToWideString` before indexing, so an index counts characters. */
module StringLib {
  import opened Common
  import opened Values
  import opened TextUtil

  // ---------------------------------------------------------------------------------
  // Argument checks
  // ---------------------------------------------------------------------------------

  /** `YanString_ThrowExc(YAN_STRING_NOT_A_STRING, …)`. */
  const NotAString := Error(TypeError, "Argument should be a string")
  /** `YanString_ThrowExc(YAN_STRING_NOT_A_LIST, …)`. */
  const NotAList := Error(TypeError, "Argument should be a list")
  /** `YanString_ThrowExc(YAN_STRING_INDEX_OUT_OF_BOUNDS, …)`. */
  const OutOfBounds := Error(TypeError, "String index out of bounds")
  /** `YanString_ThrowExc(YAN_STRING_INVILID_VALUE, …)`. */
  const NotAnIndex := Error(ValueError, "Argument should be a positive integer")

  /** `CheckIndex`: the index an argument denotes, when it is a Number holding a
      non-negative int. */
  function IndexArgument(v: Value): (r: Option<nat>)
    ensures r.Some? <==> v.Num? && v.n.Int? && v.n.i >= 0
    ensures r.Some? ==> r.value == v.n.i
  {
    match v
    case Num(Int(i)) => if i < 0 then None else Some(i)
    case _ => None
  }

  // ---------------------------------------------------------------------------------
  // Sub
  // ---------------------------------------------------------------------------------

  /** `Sub(_src, _st, _et)`: the characters from `_st` up to, not including, `_et`. */
  function Sub(src: Value, st: Value, et: Value): (r: Result<Value, Error>)
    ensures r.Ok? <==> src.Str? && IndexArgument(st).Some? && IndexArgument(et).Some? &&
                       IndexArgument(st).value <= IndexArgument(et).value <= |src.s|
    ensures r.Ok? ==> var (i, j) := (IndexArgument(st).value, IndexArgument(et).value);
                      r.value.Str? && |r.value.s| == j - i &&
                      forall k :: 0 <= k < j - i ==> r.value.s[k] == src.s[i + k]
    ensures !src.Str? ==> r == Err(NotAString)
    ensures src.Str? && (IndexArgument(st).None? || IndexArgument(et).None?) ==> r == Err(NotAnIndex)
    ensures (src.Str? && IndexArgument(st).Some? && IndexArgument(et).Some? &&
             (IndexArgument(st).value > |src.s| || IndexArgument(et).value > |src.s|)) ==> r == Err(OutOfBounds)
    ensures r.Err? && r.error.kind == RuntimeError <==>
              src.Str? && IndexArgument(st).Some? && IndexArgument(et).Some? &&
              IndexArgument(et).value < IndexArgument(st).value <= |src.s|
  {
    if !src.Str? then Err(NotAString)
    else if IndexArgument(st).None? then Err(NotAnIndex)
    else if IndexArgument(et).None? then Err(NotAnIndex)
    else
      var (s, i, j) := (src.s, IndexArgument(st).value, IndexArgument(et).value);
      if i > |s| || j > |s| then Err(OutOfBounds)
      else if i > j then Err(Error(RuntimeError, "Start index should be less than end index"))
      else Ok(Str(s[i..j]))
  }

  /** Cutting a string at any index and taking both halves gives it back. */
  lemma SubSplitsAt(s: string, k: nat)
    requires k <= |s|
    ensures Sub(Str(s), Num(Int(0)), Num(Int(k))).Ok? && Sub(Str(s), Num(Int(k)), Num(Int(|s|))).Ok?
    ensures Sub(Str(s), Num(Int(0)), Num(Int(k))).value.s + Sub(Str(s), Num(Int(k)), Num(Int(|s|))).value.s == s
  {
    assert s[..k] + s[k..] == s;
  }

  // ---------------------------------------------------------------------------------
  // Replace
  // ---------------------------------------------------------------------------------

  /** Every occurrence of `sub` in `s` replaced by `rep`, found left to right without
      overlap: the first occurrence is replaced and the search resumes after it. */
  function ReplaceAll(s: string, sub: string, rep: string): string
    requires |sub| > 0
    decreases |s|
  {
    match FindFrom(s, sub, 0)
    case None => s
    case Some(p) => s[..p] + rep + ReplaceAll(s[p + |sub|..], sub, rep)
  }

  /** One step of the replacement loop: the text up to the first occurrence, then the
      replacement, then the rest processed in turn. */
  lemma {:induction false} ReplaceStep(s: string, sub: string, rep: string, p: nat)
    requires |sub| > 0 && FindFrom(s, sub, 0) == Some(p)
    ensures p + |sub| <= |s|
    ensures ReplaceAll(s, sub, rep) == s[..p] + rep + ReplaceAll(s[p + |sub|..], sub, rep)
  {
    assert OccursAt(s, sub, p);
    assert s == s[..p] + sub + s[p + |sub|..];
    ReplaceFirst(s[..p], sub, s[p + |sub|..], rep);
  }

  /** A string without an occurrence is left as it is. */
  lemma ReplaceWithoutOccurrence(s: string, sub: string, rep: string)
    requires |sub| > 0 && forall j :: !OccursAt(s, sub, j)
    ensures ReplaceAll(s, sub, rep) == s
  {
  }

  /** The first occurrence is the one replaced: text before it is kept, and the rest is
      processed after the occurrence. */
  lemma ReplaceFirst(a: string, sub: string, b: string, rep: string)
    requires |sub| > 0
    requires forall j :: 0 <= j < |a| ==> !OccursAt(a + sub + b, sub, j)
    ensures ReplaceAll(a + sub + b, sub, rep) == a + rep + ReplaceAll(b, sub, rep)
  {
    var s := a + sub + b;
    assert s[|a|..|a| + |sub|] == sub;
    assert OccursAt(s, sub, |a|);
    var p := FindFrom(s, sub, 0);
    assert p == Some(|a|);
    assert s[..|a|] == a;
    assert s[|a| + |sub|..] == b;
  }

  /** Replacing a string by itself changes nothing. */
  lemma {:induction false} ReplaceBySelf(s: string, sub: string)
    requires |sub| > 0
    ensures ReplaceAll(s, sub, sub) == s
    decreases |s|
  {
    match FindFrom(s, sub, 0)
    case None =>
    case Some(p) =>
      ReplaceBySelf(s[p + |sub|..], sub);
      assert s[p..p + |sub|] == sub;
      assert s[..p] + s[p..p + |sub|] + s[p + |sub|..] == s;
  }

  /** `Replace(_src, _sub, _new)`. An empty `_sub` is found at position 0 forever, so the
      loop never ends. */
  method Replace(srcArg: Value, subArg: Value, newArg: Value) returns (r: Outcome<Value>)
    ensures !srcArg.Str? || !subArg.Str? || !newArg.Str? ==> r == Failure(NotAString)
    ensures srcArg.Str? && subArg.Str? && newArg.Str? ==>
              if subArg.s == [] then r == Diverges
              else r == Success(Str(ReplaceAll(srcArg.s, subArg.s, newArg.s)))
  {
    if !srcArg.Str? || !subArg.Str? || !newArg.Str? {
      return Failure(NotAString);
    }
    var src, orig, replacement := srcArg.s, subArg.s, newArg.s;
    if orig == [] {
      return Diverges;
    }
    var dest := "";
    var pos := FindFrom(src, orig, 0);
    while pos.Some?
      invariant pos == FindFrom(src, orig, 0)
      invariant ReplaceAll(srcArg.s, orig, replacement) == dest + ReplaceAll(src, orig, replacement)
      decreases |src|
    {
      var p := pos.value;
      ReplaceStep(src, orig, replacement, p);
      dest := dest + (src[..p] + replacement);
      src := src[p + |orig|..];
      pos := FindFrom(src, orig, 0);
    }
    dest := dest + src;
    r := Success(Str(dest));
  }

  // ---------------------------------------------------------------------------------
  // Substitute
  // ---------------------------------------------------------------------------------

  /** `Substitute(_src, _st, _len, _new)`: inserts `_new` before the character at `_st`.
      `_len` is checked to be an index and then not used. */
  method Substitute(srcArg: Value, st: Value, len: Value, newArg: Value) returns (r: Result<Value, Error>)
    ensures !srcArg.Str? ==> r == Err(NotAString)
    ensures srcArg.Str? && (IndexArgument(st).None? || IndexArgument(len).None?) ==> r == Err(NotAnIndex)
    ensures srcArg.Str? && IndexArgument(st).Some? && IndexArgument(len).Some? && !newArg.Str? ==> r == Err(NotAString)
    ensures r.Ok? <==> srcArg.Str? && IndexArgument(st).Some? && IndexArgument(len).Some? && newArg.Str? &&
                       IndexArgument(st).value < |srcArg.s|
    ensures r.Ok? ==> var k := IndexArgument(st).value;
                      r.value == Str(srcArg.s[..k] + newArg.s + srcArg.s[k..])
    ensures r.Err? && r.error.kind == RuntimeError ==> r.error.message == "String index out of range"
  {
    if !srcArg.Str? {
      return Err(NotAString);
    }
    if IndexArgument(st).None? || IndexArgument(len).None? {
      return Err(NotAnIndex);
    }
    if !newArg.Str? {
      return Err(NotAString);
    }
    var src, at, newString := srcArg.s, IndexArgument(st).value, newArg.s;
    if at >= |src| {
      return Err(Error(RuntimeError, "String index out of range"));
    }
    var out := "";
    var index := 0;
    while index < |src|
      invariant 0 <= index <= |src|
      invariant out == if index <= at then src[..index] else src[..at] + newString + src[at..index]
    {
      if index == at {
        out := out + newString;
      }
      out := out + [src[index]];
      index := index + 1;
    }
    assert src[..at] + newString + src[at..|src|] == src[..at] + newString + src[at..];
    r := Ok(Str(out));
  }

  // ---------------------------------------------------------------------------------
  // Format
  // ---------------------------------------------------------------------------------

  /** The placeholder letters and the values each one accepts: `%d` an int Number, `%f` a
      double Number, `%l` a List, `%m` a Dictionary or ClassObject, `%s` a String, `%x`
      anything. */
  predicate Accepts(c: char, v: Value) {
    || (c == 'd' && v.Num? && v.n.Int?)
    || (c == 'f' && v.Num? && v.n.Float?)
    || (c == 'l' && v.ListVal?)
    || (c == 'm' && (v.DictVal? || v.ClassVal?))
    || (c == 's' && v.Str?)
    || c == 'x'
  }

  /** The text one placeholder `%c` produces for the `k`-th argument (counting from 0).
      `show` stands for `Object::ToString` of the objects whose text depends on the heap
      or on floating-point printing. */
  function Placeholder(c: char, v: Value, k: nat, show: Value -> string): (r: Result<string, Error>)
    ensures r.Ok? <==> Accepts(c, v)
    ensures r.Err? ==> r.error.kind == ValueError
    ensures r.Ok? && c == 'd' ==> r.value == Decimal(v.n.i)
    ensures r.Ok? && c == 's' ==> r.value == v.s
  {
    var pos := " (pos " + Decimal(k + 1) + ")";
    match c
    case 'd' => if v.Num? && v.n.Int? then Ok(Decimal(v.n.i))
                else Err(Error(ValueError, "Format placeholder '%d' requires an integer" + pos))
    case 'f' => if v.Num? && v.n.Float? then Ok(show(v))
                else Err(Error(ValueError, "Format placeholder '%f' requires an float number" + pos))
    case 'l' => if v.ListVal? then Ok(show(v))
                else Err(Error(ValueError, "Format placeholder '%l' requires an list" + pos))
    case 'm' => if v.DictVal? || v.ClassVal? then Ok(show(v))
                else Err(Error(ValueError, "Format placeholder '%m' requires an mapping [ClassObject or Dictionary]" + pos))
    case 's' => if v.Str? then Ok(v.s)
                else Err(Error(ValueError, "Format placeholder '%s' requires an string" + pos))
    case 'x' => Ok(show(v))
    case _ => Err(Error(ValueError, "Invilid format placeholder: '%" + [c] + "'"))
  }

  const TooFewArguments :=
    Error(RuntimeError, "The amound of format args is less than the amount of placeholders in format string")
  const TrailingArguments := Error(ValueError, "Trailing format argument(s)")

  /** `t` put in front of the text of a successful expansion. */
  function Emit(t: string, r: Result<(string, nat), Error>): Result<(string, nat), Error> {
    match r
    case Ok((s, used)) => Ok((t + s, used))
    case Err(e) => Err(e)
  }

  lemma EmitEmit(a: string, b: string, r: Result<(string, nat), Error>)
    ensures Emit(a, Emit(b, r)) == Emit(a + b, r)
  {
    if r.Ok? {
      assert a + (b + r.value.0) == (a + b) + r.value.0;
    }
  }

  /** The expansion of format text `f` whose placeholders take arguments from index `k`
      on: the text produced and the number of arguments used by then. `%%` gives one `%`
      and uses no argument; a `%` at the very end produces nothing. */
  function Expand(f: string, args: seq<Value>, k: nat, show: Value -> string): Result<(string, nat), Error>
    decreases |f|
  {
    if f == [] then Ok(("", k))
    else if f[0] != '%' then Emit([f[0]], Expand(f[1..], args, k, show))
    else if |f| == 1 then Ok(("", k))
    else if f[1] == '%' then Emit("%", Expand(f[2..], args, k, show))
    else if k >= |args| then Err(TooFewArguments)
    else match Placeholder(f[1], args[k], k, show)
         case Err(e) => Err(e)
         case Ok(t) => Emit(t, Expand(f[2..], args, k + 1, show))
  }

  /** The result of `Format(_fmt, _args)` on a format string and the list's elements. */
  function FormatText(f: string, args: seq<Value>, show: Value -> string): Result<string, Error> {
    match Expand(f, args, 0, show)
    case Err(e) => Err(e)
    case Ok((t, used)) => if used < |args| then Err(TrailingArguments) else Ok(t)
  }

  /** Number of placeholders in `f`: a `%` followed by any character but `%`. */
  function Placeholders(f: string): nat
    decreases |f|
  {
    if f == [] then 0
    else if f[0] != '%' || |f| == 1 then Placeholders(f[1..])
    else if f[1] == '%' then Placeholders(f[2..])
    else 1 + Placeholders(f[2..])
  }

  /** A successful expansion uses exactly one argument per placeholder. */
  lemma {:induction false} ExpandUses(f: string, args: seq<Value>, k: nat, show: Value -> string)
    requires k <= |args|
    ensures Expand(f, args, k, show).Ok? ==>
              Expand(f, args, k, show).value.1 == k + Placeholders(f) <= |args|
    decreases |f|
  {
    if f == [] {
    } else if f[0] != '%' {
      ExpandUses(f[1..], args, k, show);
    } else if |f| == 1 {
    } else if f[1] == '%' {
      ExpandUses(f[2..], args, k, show);
    } else if k < |args| {
      ExpandUses(f[2..], args, k + 1, show);
    }
  }

  /** Formatting succeeds only when there are exactly as many arguments as placeholders. */
  lemma FormatArity(f: string, args: seq<Value>, show: Value -> string)
    ensures FormatText(f, args, show).Ok? ==> Placeholders(f) == |args|
  {
    ExpandUses(f, args, 0, show);
  }

  /** Leftover arguments after a complete expansion give the trailing-arguments error. */
  lemma FormatTrailing(f: string, args: seq<Value>, show: Value -> string)
    requires Expand(f, args, 0, show).Ok? && Placeholders(f) < |args|
    ensures FormatText(f, args, show) == Err(TrailingArguments)
  {
    ExpandUses(f, args, 0, show);
  }

  /** Too few arguments for the placeholders, with every supplied argument accepted, is
      the RuntimeError. */
  lemma {:induction false} ExpandTooFew(f: string, args: seq<Value>, k: nat, show: Value -> string)
    requires k <= |args| && k + Placeholders(f) > |args|
    ensures Expand(f, args, k, show).Err?
    decreases |f|
  {
    if f == [] {
    } else if f[0] != '%' {
      ExpandTooFew(f[1..], args, k, show);
    } else if |f| == 1 {
    } else if f[1] == '%' {
      ExpandTooFew(f[2..], args, k, show);
    } else if k < |args| {
      if Placeholder(f[1], args[k], k, show).Ok? {
        ExpandTooFew(f[2..], args, k + 1, show);
      }
    }
  }

  /** Text without `%` formats to itself with no arguments. */
  lemma {:induction false} FormatPlainText(f: string, show: Value -> string)
    requires '%' !in f
    ensures Expand(f, [], 0, show) == Ok((f, 0))
    ensures FormatText(f, [], show) == Ok(f)
    decreases |f|
  {
    if f != [] {
      assert f[0] != '%';
      assert '%' !in f[1..] by {
        assert forall c :: c in f[1..] ==> c in f;
      }
      FormatPlainText(f[1..], show);
      assert [f[0]] + f[1..] == f;
    }
  }

  /** `s` with every `%` doubled, so that it formats back to `s`. */
  function EscapePercent(s: string): (r: string)
    ensures |r| == |s| + CountChar(s, '%')
  {
    if s == [] then ""
    else
      LastCharCount(s);
      (if s[0] == '%' then "%%" else [s[0]]) + EscapePercent(s[1..])
  }

  lemma {:induction false} LastCharCount(s: string)
    requires s != []
    ensures CountChar(s, '%') == (if s[0] == '%' then 1 else 0) + CountChar(s[1..], '%')
    decreases |s|
  {
    if |s| > 1 {
      LastCharCount(s[..|s| - 1]);
      assert s[..|s| - 1][1..] == s[1..][..|s[1..]| - 1];
      assert s[..|s| - 1][0] == s[0];
    } else {
      assert s[..|s| - 1] == [] && s[1..] == [];
    }
  }

  /** The round trip of `%%`: formatting an escaped text with no arguments gives the text
      back. */
  lemma {:induction false} FormatEscaped(s: string, show: Value -> string)
    ensures Expand(EscapePercent(s), [], 0, show) == Ok((s, 0))
    ensures FormatText(EscapePercent(s), [], show) == Ok(s)
    decreases |s|
  {
    if s != [] {
      FormatEscaped(s[1..], show);
      var e := EscapePercent(s);
      if s[0] == '%' {
        assert e == "%%" + EscapePercent(s[1..]);
        assert e[2..] == EscapePercent(s[1..]);
      } else {
        assert e == [s[0]] + EscapePercent(s[1..]);
        assert e[1..] == EscapePercent(s[1..]);
      }
      assert [s[0]] + s[1..] == s;
    }
  }

  /** A lone placeholder with one argument formats exactly when the placeholder accepts
      the argument; `%d` prints the integer in decimal and `%s` the string itself. */
  lemma FormatOnePlaceholder(c: char, v: Value, show: Value -> string)
    requires c != '%'
    ensures FormatText(['%', c], [v], show).Ok? <==> Accepts(c, v)
    ensures FormatText(['%', c], [v], show).Ok? && c == 'd' ==> FormatText(['%', c], [v], show).value == Decimal(v.n.i)
    ensures FormatText(['%', c], [v], show).Ok? && c == 's' ==> FormatText(['%', c], [v], show).value == v.s
  {
    var f := ['%', c];
    assert f[2..] == [];
    if Accepts(c, v) {
      var t := Placeholder(c, v, 0, show).value;
      assert Expand(f, [v], 0, show) == Ok((t + "", 1));
      assert t + "" == t;
    }
  }

  /** The text that stands in place of the remaining input while `Format` scans: the
      unread characters, behind a `%` that has been read but not yet resolved. */
  function Pending(f: string, i: nat, pending: bool): string
    requires i <= |f|
  {
    if pending then "%" + f[i..] else f[i..]
  }

  /** `Format(_fmt, _args)`: one pass over the format string with a flag for a `%` just
      read. The source counts used arguments in `argIndex` and placeholders in `fmtArgs`;
      both advance together, so one counter stands for both. */
  method Format(fmt: Value, args: Value, show: Value -> string) returns (r: Result<Value, Error>)
    ensures !fmt.Str? ==> r == Err(NotAString)
    ensures fmt.Str? && !args.ListVal? ==> r == Err(NotAList)
    ensures fmt.Str? && args.ListVal? ==>
              match FormatText(fmt.s, args.list.elements, show)
              case Ok(t) => r == Ok(Str(t))
              case Err(e) => r == Err(e)
  {
    if !fmt.Str? {
      return Err(NotAString);
    }
    if !args.ListVal? {
      return Err(NotAList);
    }
    var f, fmtArg := fmt.s, args.list.elements;
    var startFmt := false;
    var argIndex := 0;
    var out := "";
    var i := 0;
    EmitEmpty(Expand(f, fmtArg, 0, show));
    assert Pending(f, 0, false) == f;
    while i < |f|
      invariant 0 <= i <= |f|
      invariant Expand(f, fmtArg, 0, show) == Emit(out, Expand(Pending(f, i, startFmt), fmtArg, argIndex, show))
    {
      var c := f[i];
      ExpandPending(f, i, startFmt, fmtArg, argIndex, show);
      if c == '%' && !startFmt {
        startFmt := true;
        i := i + 1;
        continue;
      }
      if startFmt {
        if c == '%' {
          EmitEmit(out, "%", Expand(Pending(f, i + 1, false), fmtArg, argIndex, show));
          out := out + "%";
          startFmt := false;
          i := i + 1;
          continue;
        }
        if argIndex >= |fmtArg| {
          return Err(TooFewArguments);
        }
        var text := Placeholder(c, fmtArg[argIndex], argIndex, show);
        if text.Err? {
          return Err(text.error);
        }
        EmitEmit(out, text.value, Expand(Pending(f, i + 1, false), fmtArg, argIndex + 1, show));
        out := out + text.value;
        startFmt := false;
        argIndex := argIndex + 1;
        i := i + 1;
        continue;
      }
      EmitEmit(out, [c], Expand(Pending(f, i + 1, false), fmtArg, argIndex, show));
      out := out + [c];
      i := i + 1;
    }
    assert f[i..] == [];
    assert Expand(Pending(f, i, startFmt), fmtArg, argIndex, show) == Ok(("", argIndex));
    assert out + "" == out;
    if argIndex < |fmtArg| {
      return Err(TrailingArguments);
    }
    r := Ok(Str(out));
  }

  lemma EmitEmpty(r: Result<(string, nat), Error>)
    ensures Emit("", r) == r
  {
    if r.Ok? {
      assert "" + r.value.0 == r.value.0;
    }
  }

  /** One step of the scan, stated on the text that stands for the remaining input. */
  lemma ExpandPending(f: string, i: nat, pending: bool, args: seq<Value>, k: nat, show: Value -> string)
    requires i < |f|
    ensures !pending && f[i] == '%' ==> Pending(f, i, false) == Pending(f, i + 1, true)
    ensures !pending && f[i] != '%' ==>
              Expand(Pending(f, i, false), args, k, show) == Emit([f[i]], Expand(Pending(f, i + 1, false), args, k, show))
    ensures pending && f[i] == '%' ==>
              Expand(Pending(f, i, true), args, k, show) == Emit("%", Expand(Pending(f, i + 1, false), args, k, show))
    ensures pending && f[i] != '%' && k >= |args| ==> Expand(Pending(f, i, true), args, k, show) == Err(TooFewArguments)
    ensures pending && f[i] != '%' && k < |args| ==>
              Expand(Pending(f, i, true), args, k, show) ==
                match Placeholder(f[i], args[k], k, show)
                case Err(e) => Err(e)
                case Ok(t) => Emit(t, Expand(Pending(f, i + 1, false), args, k + 1, show))
  {
    var here := Pending(f, i, pending);
    var rest := Pending(f, i + 1, false);
    assert f[i..][1..] == rest;
    if pending {
      assert here[0] == '%' && here[1] == f[i] && here[2..] == rest;
    } else {
      assert here[0] == f[i] && here[1..] == rest;
      if f[i] == '%' {
        assert "%" + rest == f[i..];
      }
    }
  }

  // ---------------------------------------------------------------------------------
  // StartsWith, EndsWith, _Split, ToCharArray, Repeat
  // ---------------------------------------------------------------------------------

  /** The Number 1 for true and 0 for false, as `new Number((int) val)`. */
  function Truth(b: bool): Value {
    Num(Int(if b then 1 else 0))
  }

  /** `StartsWith(_str1, _str2)`. */
  function StartsWithText(str1: Value, str2: Value): (r: Result<Value, Error>)
    ensures !str1.Str? || !str2.Str? ==> r == Err(NotAString)
    ensures str1.Str? && str2.Str? ==>
              (r == Ok(Num(Int(1))) <==> exists rest :: str1.s == str2.s + rest) &&
              (r == Ok(Num(Int(0))) <==> !exists rest :: str1.s == str2.s + rest)
  {
    if !str1.Str? || !str2.Str? then Err(NotAString)
    else
      var b := StartsWith(str1.s, str2.s);
      if b then
        assert str1.s == str2.s + str1.s[|str2.s|..];
        Ok(Truth(b))
      else
        assert forall rest :: (str2.s + rest)[..|str2.s|] == str2.s;
        Ok(Truth(b))
  }

  /** `EndsWith(_str1, _str2)`. */
  function EndsWithText(str1: Value, str2: Value): (r: Result<Value, Error>)
    ensures !str1.Str? || !str2.Str? ==> r == Err(NotAString)
    ensures str1.Str? && str2.Str? ==>
              (r == Ok(Num(Int(1))) <==> exists rest :: str1.s == rest + str2.s) &&
              (r == Ok(Num(Int(0))) <==> !exists rest :: str1.s == rest + str2.s)
  {
    if !str1.Str? || !str2.Str? then Err(NotAString)
    else
      var b := EndsWith(str1.s, str2.s);
      if b then
        assert str1.s == str1.s[..|str1.s| - |str2.s|] + str2.s;
        Ok(Truth(b))
      else
        assert forall rest :: (rest + str2.s)[|rest|..] == str2.s;
        Ok(Truth(b))
  }

  /** Strings as String values. */
  function Strings(xs: seq<string>): (vs: seq<Value>)
    ensures |vs| == |xs| && forall k :: 0 <= k < |xs| ==> vs[k] == Str(xs[k])
  {
    if xs == [] then [] else [Str(xs[0])] + Strings(xs[1..])
  }

  /** `_Split(_src, _splitter)`: the `strtok` pieces as a new List of Strings. A source
      made only of delimiters reaches the null-pointer case of `Split`. */
  method SplitText(src: Value, splitter: Value) returns (r: Outcome<ListObject>)
    ensures !src.Str? || !splitter.Str? ==> r == Failure(NotAString)
    ensures src.Str? && splitter.Str? ==>
              var pieces := Pieces(src.s, Delims(splitter.s));
              (pieces == [] ==> r == Undefined) &&
              (pieces != [] ==> r.Success? && fresh(r.value) && r.value.elements == Strings(pieces))
  {
    if !src.Str? || !splitter.Str? {
      return Failure(NotAString);
    }
    var pieces := Split(src.s, splitter.s);
    if pieces.Err? {
      return Undefined;
    }
    var l := new ListObject(Strings(pieces.value));
    r := Success(l);
  }

  /** Each character of `s` as a one-character String. */
  function Characters(s: string): (vs: seq<Value>)
    ensures |vs| == |s| && forall k :: 0 <= k < |s| ==> vs[k] == Str([s[k]])
  {
    if s == [] then [] else [Str([s[0]])] + Characters(s[1..])
  }

  /** The strings of a list of String values, concatenated. */
  function Concatenation(vs: seq<Value>): string {
    if vs == [] then "" else (if vs[0].Str? then vs[0].s else "") + Concatenation(vs[1..])
  }

  /** Exploding a string into characters and concatenating them gives the string back. */
  lemma {:induction false} CharactersRoundTrip(s: string)
    ensures Concatenation(Characters(s)) == s
    decreases |s|
  {
    if s != [] {
      CharactersRoundTrip(s[1..]);
      assert Characters(s)[1..] == Characters(s[1..]);
      assert [s[0]] + s[1..] == s;
    }
  }

  /** `ToCharArray(_src)`: a new List with one String per character. */
  method ToCharArray(src: Value) returns (r: Result<ListObject, Error>)
    ensures !src.Str? ==> r == Err(NotAString)
    ensures src.Str? ==> r.Ok? && fresh(r.value) && r.value.elements == Characters(src.s)
  {
    if !src.Str? {
      return Err(NotAString);
    }
    var wstr := src.s;
    var chars: seq<Value> := [];
    var i := 0;
    while i < |wstr|
      invariant 0 <= i <= |wstr|
      invariant chars == Characters(wstr[..i])
    {
      assert Characters(wstr[..i + 1]) == Characters(wstr[..i]) + [Str([wstr[i]])];
      chars := chars + [Str([wstr[i]])];
      i := i + 1;
    }
    assert wstr[..i] == wstr;
    var l := new ListObject(chars);
    r := Ok(l);
  }

  /** The argument checks of `Repeat(_src, _count)`: the string and the count it would
      repeat it. */
  function RepeatArguments(src: Value, count: Value): (r: Result<(string, nat), Error>)
    ensures r.Ok? <==> src.Str? && IndexArgument(count).Some?
    ensures r.Ok? ==> r.value == (src.s, IndexArgument(count).value)
    ensures !src.Str? ==> r == Err(NotAString)
    ensures src.Str? && r.Err? ==> r.error.kind == TypeError
  {
    if !src.Str? then Err(NotAString)
    else match IndexArgument(count)
         case None => Err(Error(TypeError, "Repeat count should be a positive (or 0) integer"))
         case Some(n) => Ok((src.s, n))
  }
}
