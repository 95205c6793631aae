/** The Python support layer that translated programs run against
    (builtins_py/common.py): the dictionary class that stands for Yan dictionaries and
    objects, the list builtins, `require` and `import`, and the names the layer
    defines. */
module PySupport {
  import opened Common

  // ---------------------------------------------------------------------------------
  // Values
  // ---------------------------------------------------------------------------------

  /** A key of a Python dict as translated programs build them. */
  datatype Key = StrKey(s: string) | IntKey(i: int)

  /** A Python value as far as the layer handles it. */
  datatype PyValue =
    | PyNone
    | PyInt(i: int)
    | PyStr(s: string)
    | Dict(d: YanDict)
    | List(l: PyList)
      /** A method of the built-in `dict` type, found on the object by ordinary lookup. */
    | BoundMethod(name: string)
      /** A function or other object the layer only passes on. */
    | Foreign(id: nat)

  /** The exceptions the layer raises, or lets Python raise. */
  datatype PyException =
    | Exception(message: string)
    | KeyError(key: Key)
    | NameError(name: string)
    | IndexError(message: string)
    | AttributeError(name: string)
    | ModuleNotFoundError(name: string)
      /** `new` on an object that is not a class instance: "… new {self}", whose text
          is the object's Python repr. */
    | UnsupportedNew(target: YanDict)

  /** The common head of the layer's "not supported" messages. */
  const UnsupportedPrefix := "Unsupported operation in python support: "

  // ---------------------------------------------------------------------------------
  // yan_dict_impl
  // ---------------------------------------------------------------------------------

  /** The public methods of Python's `dict`, which ordinary attribute lookup finds before
      `__getattr__` is consulted. */
  const DictMethodNames: set<string> :=
    {"clear", "copy", "fromkeys", "get", "items", "keys", "pop", "popitem", "setdefault",
     "update", "values"}

  /** Reading attribute `name` of an object whose dict holds `entries` and whose type has
      the attributes `typeAttrs`: the type's attribute if there is one, otherwise
      `__getattr__`, which is `self[name]`. */
  function AttrOf(entries: map<Key, PyValue>, typeAttrs: set<string>, name: string): Result<PyValue, PyException> {
    if name in typeAttrs then Ok(BoundMethod(name))
    else if StrKey(name) in entries then Ok(entries[StrKey(name)])
    else Err(KeyError(StrKey(name)))
  }

  /** After `o.n = v`, reading `o.n` gives `v`, unless `n` is an attribute of the type. */
  lemma AttrAfterSet(entries: map<Key, PyValue>, typeAttrs: set<string>, name: string, v: PyValue)
    requires name !in typeAttrs
    ensures AttrOf(entries[StrKey(name) := v], typeAttrs, name) == Ok(v)
  {
  }

  /** A write to a name the type has is stored in the dict but never read back: `o.keys
      = 1` keeps `o.keys` the dict method. */
  lemma AttrShadowedByType(entries: map<Key, PyValue>, typeAttrs: set<string>, name: string, v: PyValue)
    requires name in typeAttrs
    ensures entries[StrKey(name) := v][StrKey(name)] == v
    ensures AttrOf(entries[StrKey(name) := v], typeAttrs, name) == Ok(BoundMethod(name))
  {
  }

  /** A read fails exactly for a name that is neither stored nor an attribute of the type,
      and then with KeyError: there is no default and no parent lookup. */
  lemma AttrMissing(entries: map<Key, PyValue>, typeAttrs: set<string>, name: string)
    ensures AttrOf(entries, typeAttrs, name).Err? <==> name !in typeAttrs && StrKey(name) !in entries
    ensures AttrOf(entries, typeAttrs, name).Err? ==> AttrOf(entries, typeAttrs, name).error == KeyError(StrKey(name))
  {
  }

  /** A write touches one key: every other attribute reads as before. */
  lemma AttrOtherUnchanged(entries: map<Key, PyValue>, typeAttrs: set<string>, name: string, v: PyValue, other: string)
    requires other != name
    ensures AttrOf(entries[StrKey(name) := v], typeAttrs, other) == AttrOf(entries, typeAttrs, other)
  {
  }

  /** One call made by the layer into code it does not see. */
  datatype Invocation = Invocation(callee: PyValue, arguments: seq<PyValue>)

  /** `yan_dict_impl`: a `dict` whose attribute reads and writes are item reads and
      writes, and whose call is the `new` protocol. */
  class YanDict {
    var entries: map<Key, PyValue>
    /** The attributes of the object's type (`dict` and `object` and the class's own
        special methods); which special names exist depends on the Python version. */
    const typeAttributes: set<string>

    constructor (entries: map<Key, PyValue>, typeAttributes: set<string>)
      requires DictMethodNames <= typeAttributes
      ensures this.entries == entries && this.typeAttributes == typeAttributes
    {
      this.entries := entries;
      this.typeAttributes := typeAttributes;
    }

    /** `o.name`: ordinary lookup on the type, then `__getattr__`. */
    method GetAttr(name: string) returns (r: Result<PyValue, PyException>)
      ensures r == AttrOf(entries, typeAttributes, name)
    {
      if name in typeAttributes {
        return Ok(BoundMethod(name));
      }
      if StrKey(name) !in entries {
        return Err(KeyError(StrKey(name)));
      }
      r := Ok(entries[StrKey(name)]);
    }

    /** `__setattr__`: `o.name = value` is `self[name] = value`, and nothing else is
        stored. */
    method SetAttr(name: string, value: PyValue)
      modifies this
      ensures entries == old(entries)[StrKey(name) := value]
    {
      entries := entries[StrKey(name) := value];
    }

    /** `__call__`: with both `'__init__'` and `'__cls__'` present, calls
        `self['__init__'](self)` once and returns the object itself; the call's own
        arguments are dropped. Otherwise raises and calls nothing. */
    method Call(args: seq<PyValue>) returns (r: Result<PyValue, PyException>, invoked: seq<Invocation>)
      ensures StrKey("__init__") in entries && StrKey("__cls__") in entries ==>
                r == Ok(Dict(this)) && invoked == [Invocation(entries[StrKey("__init__")], [Dict(this)])]
      ensures !(StrKey("__init__") in entries && StrKey("__cls__") in entries) ==>
                r == Err(UnsupportedNew(this)) && invoked == []
    {
      if StrKey("__init__") in entries && StrKey("__cls__") in entries {
        invoked := [Invocation(entries[StrKey("__init__")], [Dict(this)])];
        r := Ok(Dict(this));
      } else {
        invoked := [];
        r := Err(UnsupportedNew(this));
      }
    }
  }

  // ---------------------------------------------------------------------------------
  // List builtins
  // ---------------------------------------------------------------------------------

  /** A Python list. */
  class PyList {
    var items: seq<PyValue>

    constructor (items: seq<PyValue>)
      ensures this.items == items
    {
      this.items := items;
    }
  }

  /** Python's index rule: a negative index counts from the end. */
  function ResolveIndex(n: int, size: nat): (r: Option<nat>)
    ensures r.Some? <==> -(size as int) <= n < size
    ensures r.Some? ==> r.value < size && r.value == (if n < 0 then n + size else n)
  {
    if n < 0 then (if n + size >= 0 then Some(n + size) else None)
    else if n < size then Some(n)
    else None
  }

  /** The message Python gives for `l[n] = v` and `del l[n]` out of range. */
  const AssignmentOutOfRange := "list assignment index out of range"

  /** `yan_builtin_impl_append`: `l.append(v)`. */
  method BuiltinAppend(l: PyList, v: PyValue) returns (r: PyValue)
    modifies l
    ensures l.items == old(l.items) + [v] && r == PyNone
  {
    l.items := l.items + [v];
    r := PyNone;
  }

  /** `yan_builtin_impl_concat`: `l.extend(v)`; extending a list by itself doubles it. */
  method BuiltinConcat(l: PyList, v: PyList) returns (r: PyValue)
    modifies l
    ensures l.items == old(l.items) + old(v.items) && r == PyNone
  {
    l.items := l.items + v.items;
    r := PyNone;
  }

  /** `yan_builtin_impl_set`: `l[n] = v`. */
  method BuiltinSet(l: PyList, n: int, v: PyValue) returns (r: Result<PyValue, PyException>)
    modifies l
    ensures ResolveIndex(n, |old(l.items)|).Some? ==>
              r == Ok(PyNone) && l.items == old(l.items)[ResolveIndex(n, |old(l.items)|).value := v]
    ensures ResolveIndex(n, |old(l.items)|).None? ==>
              r == Err(IndexError(AssignmentOutOfRange)) && l.items == old(l.items)
  {
    var k := ResolveIndex(n, |l.items|);
    if k.None? {
      return Err(IndexError(AssignmentOutOfRange));
    }
    l.items := l.items[k.value := v];
    r := Ok(PyNone);
  }

  /** `s` without its element at `k`. */
  function Without(s: seq<PyValue>, k: nat): (r: seq<PyValue>)
    requires k < |s|
    ensures |r| == |s| - 1
    ensures forall j :: 0 <= j < k ==> r[j] == s[j]
    ensures forall j :: k <= j < |r| ==> r[j] == s[j + 1]
  {
    s[..k] + s[k + 1..]
  }

  /** Removing an element and putting it back restores the list. */
  lemma WithoutThenInsert(s: seq<PyValue>, k: nat)
    requires k < |s|
    ensures Without(s, k)[..k] + [s[k]] + Without(s, k)[k..] == s
  {
    var w := Without(s, k);
    assert w[..k] == s[..k];
    assert w[k..] == s[k + 1..];
  }

  /** The remove builtin (written `yan_builitin_impl_remove`): `del l[i]`. */
  method BuiltinRemove(l: PyList, i: int) returns (r: Result<PyValue, PyException>)
    modifies l
    ensures ResolveIndex(i, |old(l.items)|).Some? ==>
              r == Ok(PyNone) && l.items == Without(old(l.items), ResolveIndex(i, |old(l.items)|).value)
    ensures ResolveIndex(i, |old(l.items)|).None? ==>
              r == Err(IndexError(AssignmentOutOfRange)) && l.items == old(l.items)
  {
    var k := ResolveIndex(i, |l.items|);
    if k.None? {
      return Err(IndexError(AssignmentOutOfRange));
    }
    l.items := l.items[..k.value] + l.items[k.value + 1..];
    r := Ok(PyNone);
  }

  // ---------------------------------------------------------------------------------
  // Names the layer defines
  // ---------------------------------------------------------------------------------

  /** Prefix of the functions that implement builtins. */
  const ImplPrefix := "yan_builtin_impl_"

  /** The builtins with a `yan_builtin_impl_*` function, other than remove. */
  const ImplSuffixes: set<string> :=
    {"println", "print", "readLine", "typeof", "len", "range", "parseInt", "parseFloat",
     "str", "panic", "eval", "sin", "cos", "tan", "log", "ln", "sqrt", "abs", "set", "input",
     "append", "concat", "addressOf", "del", "recover", "builtins", "keys", "values",
     "isInteger", "isFloating", "require", "import"}

  /** The other module-level names, the imported ones included. */
  const OtherNames: set<string> :=
    {"Any", "Sequence", "math", "inspect", "Panic", "yan_pyeval", "YanLibs", "null", "yan_dict_impl"}

  /** The names the module defines AS WRITTEN: the remove builtin is spelled
      `yan_builitin_impl_remove`. */
  predicate DefinesAsWritten(name: string) {
    || (StartsWith(name, ImplPrefix) && name[|ImplPrefix|..] in ImplSuffixes)
    || name == "yan_builitin_impl_remove"
    || name in OtherNames
  }

  /** The names the module defines, with the remove builtin under the common prefix. */
  predicate Defines(name: string) {
    || (StartsWith(name, ImplPrefix) && name[|ImplPrefix|..] in ImplSuffixes + {"remove"})
    || name in OtherNames
  }

  /** `from builtins_py.common import *` without `__all__` brings in the names that do
      not start with an underscore. */
  predicate StarImported(name: string) {
    name != [] && name[0] != '_'
  }

  /** A translated call of `remove` finds no function as written. */
  lemma RemoveMisspelled()
    ensures !DefinesAsWritten(ImplPrefix + "remove")
    ensures Defines(ImplPrefix + "remove")
  {
    var n := ImplPrefix + "remove";
    assert n[|ImplPrefix|..] == "remove";
    assert StartsWith(n, ImplPrefix) by { assert n[..|ImplPrefix|] == ImplPrefix; }
    assert n != "yan_builitin_impl_remove" by { assert n[12] != "yan_builitin_impl_remove"[12]; }
  }

  /** The correction only adds the remove builtin. */
  lemma DefinesExtendsAsWritten(name: string)
    requires name != "yan_builitin_impl_remove"
    ensures DefinesAsWritten(name) ==> Defines(name)
  {
  }

  // ---------------------------------------------------------------------------------
  // require
  // ---------------------------------------------------------------------------------

  /** `YanLibs.BUILTIN_MODULES`: the module tags the layer leaves to a later version. */
  const BuiltinModules: seq<string> := ["string", "fs", "os", "rand", "time", "inspect"]

  /** The modules the host Python can import, each by its namespace. */
  type Modules = map<string, map<string, PyValue>>

  /** `yan_builtin_impl_require` AS WRITTEN: a native name is rejected; any other name
      evaluates the unqualified `BUILTIN_MODULES`, which the module does not define
      (it is a class attribute of `YanLibs`). */
  function RequireAsWritten(name: string): Result<PyValue, PyException> {
    if StartsWith(name, "@") then Err(Exception(UnsupportedPrefix + "require native module"))
    else if !DefinesAsWritten("BUILTIN_MODULES") then Err(NameError("BUILTIN_MODULES"))
    else Ok(PyNone)
  }

  /** As written, `require` never succeeds: `require('string')` raises NameError. */
  lemma RequireAsWrittenFails(name: string)
    ensures RequireAsWritten(name).Err?
    ensures !StartsWith(name, "@") ==> RequireAsWritten(name) == Err(NameError("BUILTIN_MODULES"))
  {
    assert |"BUILTIN_MODULES"| < |ImplPrefix|;
  }

  /** The star import the loop means: every attribute in `names` copied from the module
      `ns` into `g`, in order; a name the module lacks is an AttributeError. */
  function CopyAll(names: seq<string>, ns: map<string, PyValue>, g: map<string, PyValue>): Result<map<string, PyValue>, PyException>
    decreases |names|
  {
    if names == [] then Ok(g)
    else if names[0] !in ns then Err(AttributeError(names[0]))
    else CopyAll(names[1..], ns, g[names[0] := ns[names[0]]])
  }

  /** The bindings of `ns` for the names in `names`. */
  function Picked(names: seq<string>, ns: map<string, PyValue>): (m: map<string, PyValue>)
    requires forall k :: 0 <= k < |names| ==> names[k] in ns
    ensures forall a :: a in m <==> a in names
    ensures forall a :: a in m ==> m[a] == ns[a]
  {
    map a | a in names :: ns[a]
  }

  /** Copying names all of which the module has adds exactly those bindings. */
  lemma {:induction false} CopyAllPresent(names: seq<string>, ns: map<string, PyValue>, g: map<string, PyValue>)
    requires forall k :: 0 <= k < |names| ==> names[k] in ns
    ensures CopyAll(names, ns, g) == Ok(g + Picked(names, ns))
    decreases |names|
  {
    if names != [] {
      assert names[0] in ns;
      var g' := g[names[0] := ns[names[0]]];
      CopyAllPresent(names[1..], ns, g');
      var lhs := g' + Picked(names[1..], ns);
      var rhs := g + Picked(names, ns);
      assert forall a :: a in names <==> a == names[0] || a in names[1..];
      assert lhs.Keys == rhs.Keys;
      assert forall a :: a in lhs ==> lhs[a] == rhs[a];
      assert lhs == rhs;
    } else {
      assert g + Picked(names, ns) == g;
    }
  }

  /** AS WRITTEN the loop walks `dir(module)`, the attributes of the name string, whose
      first entry is `__add__`. The loop is reached only once the NameError of
      `RequireAsWrittenFails` is corrected; then any module without that attribute stops
      it at once, before anything is copied. */
  lemma CopyOverStringAttributes(strDir: seq<string>, ns: map<string, PyValue>, g: map<string, PyValue>)
    requires strDir != [] && strDir[0] == "__add__" && "__add__" !in ns
    ensures CopyAll(strDir, ns, g) == Err(AttributeError("__add__"))
  {
  }

  /** `require` with the tag check on `YanLibs.BUILTIN_MODULES` and the copy over the
      module's attributes: a native name is rejected, a tag does nothing, any other name
      is imported and its attributes bound in the caller's globals `g`. */
  function RequireSpec(name: string, modules: Modules, g: map<string, PyValue>): Result<map<string, PyValue>, PyException> {
    if StartsWith(name, "@") then Err(Exception(UnsupportedPrefix + "require native module"))
    else if name in BuiltinModules then Ok(g)
    else if name !in modules then Err(ModuleNotFoundError(name))
    else Ok(g + modules[name])
  }

  /** A native name is rejected whatever modules exist. */
  lemma RequireNativeFirst(name: string, modules: Modules, g: map<string, PyValue>)
    requires StartsWith(name, "@")
    ensures RequireSpec(name, modules, g) == Err(Exception(UnsupportedPrefix + "require native module"))
  {
  }

  /** The tags are exactly the six library names, and a tag leaves the globals alone even
      when a Python module of that name exists. */
  lemma RequireTags(name: string, modules: Modules, g: map<string, PyValue>)
    ensures name in BuiltinModules <==> name in {"string", "fs", "os", "rand", "time", "inspect"}
    ensures name in BuiltinModules ==> RequireSpec(name, modules, g) == Ok(g)
  {
    if name in BuiltinModules {
      assert name == "string" || name == "fs" || name == "os" || name == "rand" || name == "time" || name == "inspect";
      assert name[0] != '@';
    }
  }

  /** A module brought in by `require` binds each of its attributes in the globals and
      changes no other global. */
  lemma RequireBinds(name: string, modules: Modules, g: map<string, PyValue>)
    requires !StartsWith(name, "@") && name !in BuiltinModules && name in modules
    ensures RequireSpec(name, modules, g).Ok?
    ensures var g' := RequireSpec(name, modules, g).value;
            (forall a :: a in modules[name] ==> a in g' && g'[a] == modules[name][a]) &&
            (forall a :: a in g && a !in modules[name] ==> a in g' && g'[a] == g[a])
  {
  }

  /** The caller's module-level namespace. */
  class Globals {
    var names: map<string, PyValue>

    constructor (names: map<string, PyValue>)
      ensures this.names == names
    {
      this.names := names;
    }
  }

  /** Binding one more attribute of `mod` extends the globals by that attribute. */
  lemma BindAttributeStep(g: map<string, PyValue>, mod: map<string, PyValue>, remaining: set<string>, attr: string)
    requires attr in remaining && remaining <= mod.Keys
    ensures (g + map a | a in mod.Keys - remaining :: mod[a])[attr := mod[attr]] ==
              g + map a | a in mod.Keys - (remaining - {attr}) :: mod[a]
  {
  }

  /** `yan_builtin_impl_require` with `YanLibs.BUILTIN_MODULES` and `dir(mod)`: the
      attribute loop binds the module's attributes one at a time. */
  method Require(name: string, modules: Modules, globals: Globals) returns (r: Result<PyValue, PyException>)
    modifies globals
    ensures var spec := RequireSpec(name, modules, old(globals.names));
            (spec.Ok? ==> r == Ok(PyNone) && globals.names == spec.value) &&
            (spec.Err? ==> r == Err(spec.error) && globals.names == old(globals.names))
  {
    if StartsWith(name, "@") {
      return Err(Exception(UnsupportedPrefix + "require native module"));
    }
    if name in BuiltinModules {
      return Ok(PyNone);
    }
    if name !in modules {
      return Err(ModuleNotFoundError(name));
    }
    var mod := modules[name];
    var remaining := mod.Keys;
    while remaining != {}
      invariant remaining <= mod.Keys
      invariant globals.names == old(globals.names) + map a | a in mod.Keys - remaining :: mod[a]
      decreases remaining
    {
      var attr :| attr in remaining;
      BindAttributeStep(old(globals.names), mod, remaining, attr);
      globals.names := globals.names[attr := mod[attr]];
      remaining := remaining - {attr};
    }
    assert (map a | a in mod.Keys :: mod[a]) == mod;
    assert globals.names == old(globals.names) + mod;
    r := Ok(PyNone);
  }

  // ---------------------------------------------------------------------------------
  // import
  // ---------------------------------------------------------------------------------

  /** `s.split(c)`: the pieces between occurrences of `c`, empty ones included. */
  function PySplit(s: string, c: char): (r: seq<string>)
    ensures |r| >= 1
    decreases |s|
  {
    var k := RunBefore(s, c);
    if k == |s| then [s] else [s[..k]] + PySplit(s[k + 1..], c)
  }

  /** Length of the prefix of `s` before the first `c`. */
  function RunBefore(s: string, c: char): (k: nat)
    ensures k <= |s| && (k < |s| ==> s[k] == c)
    ensures forall j :: 0 <= j < k ==> s[j] != c
  {
    if s == [] || s[0] == c then 0 else 1 + RunBefore(s[1..], c)
  }

  /** Joining the pieces with `c` gives the string back. */
  lemma {:induction false} PySplitJoin(s: string, c: char)
    ensures Join(PySplit(s, c), [c]) == s
    decreases |s|
  {
    var k := RunBefore(s, c);
    if k < |s| {
      var rest := PySplit(s[k + 1..], c);
      PySplitJoin(s[k + 1..], c);
      assert PySplit(s, c) == [s[..k]] + rest;
      assert s == s[..k] + [c] + s[k + 1..];
    }
  }

  lemma CountCharAppend(a: string, b: string, c: char)
    ensures CountChar(a + b, c) == CountChar(a, c) + CountChar(b, c)
    decreases |b|
  {
    if b != [] {
      assert (a + b)[..|a + b| - 1] == a + b[..|b| - 1];
      CountCharAppend(a, b[..|b| - 1], c);
    } else {
      assert a + b == a;
    }
  }

  /** A string without `c` counts no `c`. */
  lemma {:induction false} CountCharAbsent(s: string, c: char)
    requires forall j :: 0 <= j < |s| ==> s[j] != c
    ensures CountChar(s, c) == 0
    decreases |s|
  {
    if s != [] {
      CountCharAbsent(s[..|s| - 1], c);
    }
  }

  /** There is one more piece than there are separators. */
  lemma {:induction false} PySplitCount(s: string, c: char)
    ensures |PySplit(s, c)| == CountChar(s, c) + 1
    decreases |s|
  {
    var k := RunBefore(s, c);
    CountCharAbsent(s[..k], c);
    if k == |s| {
      assert s[..k] == s;
    } else {
      PySplitCount(s[k + 1..], c);
      assert s == s[..k] + ([c] + s[k + 1..]);
      CountCharAppend(s[..k], [c] + s[k + 1..], c);
      CountCharAppend([c], s[k + 1..], c);
      assert CountChar([c], c) == 1 by { assert [c][..0] == []; }
    }
  }

  /** Splitting `c`-free parts joined with `c` gives the parts back. */
  lemma {:induction false} PySplitOfJoin(parts: seq<string>, c: char)
    requires |parts| >= 1 && forall i :: 0 <= i < |parts| ==> c !in parts[i]
    ensures PySplit(Join(parts, [c]), c) == parts
    decreases |parts|
  {
    var x := parts[0];
    if |parts| == 1 {
      assert RunBefore(x, c) == |x| by { RunBeforeOf(x, [], c); }
    } else {
      var tail := Join(parts[1..], [c]);
      var s := x + [c] + tail;
      assert Join(parts, [c]) == s;
      RunBeforeOf(x, [c] + tail, c);
      assert s == x + ([c] + tail);
      assert s[..|x|] == x && s[|x| + 1..] == tail;
      assert forall i :: 0 <= i < |parts[1..]| ==> parts[1..][i] == parts[i + 1];
      PySplitOfJoin(parts[1..], c);
    }
  }

  /** The first `c` of `x + y` for a `c`-free `x` is at or after `|x|`. */
  lemma RunBeforeOf(x: string, y: string, c: char)
    requires c !in x && (y == [] || y[0] == c)
    ensures RunBefore(x + y, c) == |x|
    decreases |x|
  {
    if x != [] {
      assert (x + y)[1..] == x[1..] + y;
      RunBeforeOf(x[1..], y, c);
    } else {
      assert x + y == y;
    }
  }

  /** `yan_builtin_impl_import` AS WRITTEN: a native name is rejected, then more than two
      `'.'`-pieces (empty ones count), then `split('.')[1]` raises IndexError for a name
      without a dot. On success the function computes the two parts and returns None. */
  function ImportAsWritten(name: string): Result<PyValue, PyException> {
    if StartsWith(name, "@") then Err(Exception(UnsupportedPrefix + "import native module"))
    else if |PySplit(name, '.')| > 2 then Err(Exception("Invilid import specification"))
    else if |PySplit(name, '.')| < 2 then Err(IndexError("list index out of range"))
    else Ok(PyNone)
  }

  /** What the import names: the module file and, after one dot, an attribute. A name
      without a dot names the whole module, as the interpreter's `import` treats it. */
  function ImportTarget(name: string): (r: Result<(string, Option<string>), PyException>)
  {
    if StartsWith(name, "@") then Err(Exception(UnsupportedPrefix + "import native module"))
    else
      var parts := PySplit(name, '.');
      if |parts| > 2 then Err(Exception("Invilid import specification"))
      else if |parts| == 2 then Ok((parts[0], Some(parts[1])))
      else Ok((parts[0], None))
  }

  /** The native check comes first: `'@a.b.c'` gets the native-module error. */
  lemma ImportNativeFirst(name: string)
    requires StartsWith(name, "@")
    ensures ImportAsWritten(name) == Err(Exception(UnsupportedPrefix + "import native module"))
    ensures ImportTarget(name).Err? && ImportTarget(name).error == ImportAsWritten(name).error
  {
  }

  /** A name with two or more dots (empty pieces included) is rejected; with exactly one
      the two parts are the pieces around it. */
  lemma ImportDots(name: string)
    requires !StartsWith(name, "@")
    ensures ImportAsWritten(name) == Err(Exception("Invilid import specification")) <==> CountChar(name, '.') >= 2
    ensures CountChar(name, '.') == 1 ==>
              (ImportAsWritten(name) == Ok(PyNone) &&
               ImportTarget(name) == Ok((PySplit(name, '.')[0], Some(PySplit(name, '.')[1]))) &&
               name == PySplit(name, '.')[0] + "." + PySplit(name, '.')[1])
  {
    PySplitCount(name, '.');
    PySplitJoin(name, '.');
    var p := PySplit(name, '.');
    if |p| == 2 {
      assert p[1..] == [p[1]];
      assert Join(p, ".") == p[0] + "." + p[1];
    }
  }

  /** An empty segment is a segment of its own: `a..b` splits in three and is rejected. */
  lemma ImportOfEmptySegment()
    ensures PySplit("a..b", '.') == ["a", "", "b"]
    ensures ImportTarget("a..b") == Err(Exception("Invilid import specification"))
  {
    assert PySplit("b", '.') == ["b"] by {
      assert RunBefore("b", '.') == 1 by { assert "b"[1..] == []; }
    }
    assert PySplit(".b", '.') == [""] + PySplit("b", '.') by { assert ".b"[1..] == "b"; }
    assert PySplit("a..b", '.') == ["a"] + PySplit(".b", '.') by {
      assert "a..b"[1..] == "..b" && "..b"[..0] == [];
      assert "a..b"[..1] == "a" && "a..b"[2..] == ".b";
    }
  }

  /** `import('m')` raises IndexError as written; it means the whole module `m`. */
  lemma ImportOfOneSegment(name: string)
    requires !StartsWith(name, "@") && '.' !in name
    ensures ImportAsWritten(name) == Err(IndexError("list index out of range"))
    ensures ImportTarget(name) == Ok((name, None))
  {
    assert RunBefore(name, '.') == |name| by { RunBeforeOf(name, [], '.'); }
  }

  /** Both agree on every name with a dot. */
  lemma ImportTargetAgrees(name: string)
    requires ImportAsWritten(name).Ok? || ImportAsWritten(name).error != IndexError("list index out of range")
    ensures ImportTarget(name).Ok? <==> ImportAsWritten(name).Ok?
    ensures ImportTarget(name).Err? ==> ImportTarget(name).error == ImportAsWritten(name).error
  {
  }
}
