/** How the translator's output meets the Python support layer, and how the layer's
    `import` compares with the interpreter's: the names translated code calls, and the
    module names both accept. */
module Consistency {
  import opened Common
  import Translator
  import PySupport
  import Values
  import TextUtil
  import Builtins

  /** Both sides use the same prefix for builtins. */
  lemma SamePrefix()
    ensures Translator.BuiltinPrefix == PySupport.ImplPrefix
  {
  }

  /** A translated call of a builtin other than `remove`, `readFile` and `writeFile`
      reaches a function the layer defines and exports. */
  lemma BuiltinCallsResolve(name: string)
    requires Translator.IsBuiltinName(name)
    requires name != "remove" && name != "readFile" && name != "writeFile"
    ensures PySupport.DefinesAsWritten(Translator.BuiltinPrefix + name)
    ensures PySupport.StarImported(Translator.BuiltinPrefix + name)
  {
    var n := Translator.BuiltinPrefix + name;
    assert n[..|PySupport.ImplPrefix|] == PySupport.ImplPrefix;
    assert n[|PySupport.ImplPrefix|..] == name;
    assert n[0] == 'y';
  }

  /** As written, a translated `remove(l, i)` calls a name the layer does not define;
      with the corrected spelling it resolves. */
  lemma RemoveCallAsWritten()
    ensures !PySupport.DefinesAsWritten(Translator.BuiltinPrefix + "remove")
    ensures PySupport.Defines(Translator.BuiltinPrefix + "remove")
  {
    PySupport.RemoveMisspelled();
  }

  /** `readFile` and `writeFile` are translated as builtins, but the layer has no
      function for them. */
  lemma FileBuiltinsUndefined()
    ensures Translator.IsBuiltinName("readFile") && Translator.IsBuiltinName("writeFile")
    ensures !PySupport.Defines(Translator.BuiltinPrefix + "readFile")
    ensures !PySupport.Defines(Translator.BuiltinPrefix + "writeFile")
  {
    var r := Translator.BuiltinPrefix + "readFile";
    var w := Translator.BuiltinPrefix + "writeFile";
    assert r[|PySupport.ImplPrefix|..] == "readFile";
    assert w[|PySupport.ImplPrefix|..] == "writeFile";
  }

  /** As written, a dictionary literal calls `__yan_dict_impl`, which the layer neither
      defines nor would export (a leading underscore keeps a name out of a star import);
      the class it defines is `yan_dict_impl`. */
  lemma DictionaryConstructorAsWritten()
    ensures !PySupport.DefinesAsWritten(Translator.DictionaryConstructorAsWritten)
    ensures !PySupport.StarImported(Translator.DictionaryConstructorAsWritten)
    ensures PySupport.Defines(Translator.DictionaryConstructor)
    ensures PySupport.StarImported(Translator.DictionaryConstructor)
  {
    assert |Translator.DictionaryConstructorAsWritten| < |PySupport.ImplPrefix|;
  }

  /** `defer` is translated to a call of `__yan_keyword_impl_defer`, which the layer
      does not define. */
  lemma DeferTargetUndefined()
    ensures !PySupport.Defines("__yan_keyword_impl_defer")
    ensures !PySupport.StarImported("__yan_keyword_impl_defer")
  {
    var n := "__yan_keyword_impl_defer";
    assert n[..|PySupport.ImplPrefix|][0] != PySupport.ImplPrefix[0];
  }

  /** On names made of one or two non-empty dot-free segments the layer's `import`
      (corrected) names the same module and symbol as the interpreter's. */
  lemma ImportShapesAgree(parts: seq<string>)
    requires 1 <= |parts| <= 2 && Builtins.Segments(parts) && !StartsWith(parts[0], "@")
    ensures var name := Join(parts, ".");
            var py := PySupport.ImportTarget(name);
            var yan := Builtins.ImportShape(Values.Str(name));
            (|parts| == 1 ==> py == Ok((parts[0], None)) && yan == Values.Success(Builtins.UseModule(parts[0]))) &&
            (|parts| == 2 ==> py == Ok((parts[0], Some(parts[1]))) &&
                              yan == Values.Success(Builtins.ImportSymbol(parts[0] + ".yan", parts[1])))
  {
    Builtins.ImportOfDottedName(parts);
    Builtins.JoinStartsWithFirst(parts, ".");
    assert '.' in TextUtil.Delims(".");
    forall i | 0 <= i < |parts|
      ensures '.' !in parts[i]
    {
      assert TextUtil.IsPiece(parts[i], TextUtil.Delims("."));
    }
    PySupport.PySplitOfJoin(parts, '.');
  }

  /** The two differ on empty segments: the interpreter drops them, Python's split keeps
      them, so `a..b` is one symbol import there and a rejected name here. */
  lemma ImportEmptySegmentsDiffer()
    ensures Builtins.ImportShape(Values.Str("a..b")) == Values.Success(Builtins.ImportSymbol("a.yan", "b"))
    ensures PySupport.ImportTarget("a..b") == Err(PySupport.Exception("Invilid import specification"))
  {
    Builtins.ImportIgnoresEmptySegments();
    PySupport.ImportOfEmptySegment();
  }
}
