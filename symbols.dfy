/** The interpreter's scopes (yan-lang.hpp:3151-3190): a `SymbolTable` maps names to
    objects and points to the enclosing table; the global table has no parent. */
module Symbols {
  import opened Common
  import opened Values

  class SymbolTable {
    var symbols: map<string, Value>
    var parent: SymbolTable?
    /** This table and every table on its parent chain. */
    ghost var Repr: set<object>

    /** The parent chain is finite and acyclic. */
    ghost predicate Valid()
      reads this, Repr
      decreases Repr
    {
      this in Repr &&
      (parent != null ==>
        parent in Repr && parent.Repr <= Repr && this !in parent.Repr && parent.Valid())
    }

    /** The binding a name has in this scope: the innermost table that defines it wins. */
    ghost function Resolve(name: string): Option<Value>
      reads this, Repr
      requires Valid()
      decreases Repr
    {
      if name in symbols then Some(symbols[name])
      else if parent == null then None
      else parent.Resolve(name)
    }

    /** A global table. */
    constructor ()
      ensures Valid() && fresh(Repr)
      ensures symbols == map[] && parent == null
      ensures forall name :: Resolve(name) == None
    {
      symbols := map[];
      parent := null;
      Repr := {this};
    }

    /** A table nested in `enclosing` (a function call's frame, yan-lang.hpp:3688). */
    constructor Nested(enclosing: SymbolTable)
      requires enclosing.Valid()
      ensures Valid() && fresh(Repr - enclosing.Repr)
      ensures symbols == map[] && parent == enclosing
      ensures forall name :: Resolve(name) == enclosing.Resolve(name)
    {
      symbols := map[];
      parent := enclosing;
      Repr := {this} + enclosing.Repr;
    }

    /** `SymbolTable::Get`: the local binding, else the first binding up the parent
        chain, else nothing (the source's null pointer). */
    method Get(name: string) returns (r: Option<Value>)
      requires Valid()
      ensures r == Resolve(name)
    {
      if name in symbols {
        return Some(symbols[name]);
      }
      var st := parent;
      while st != null
        invariant st != null ==> st in Repr && st.Repr <= Repr && st.Valid()
        invariant Resolve(name) == (if st == null then None else st.Resolve(name))
        decreases if st == null then {} else st.Repr
      {
        if name in st.symbols {
          return Some(st.symbols[name]);
        }
        st := st.parent;
      }
      r := None;
    }

    /** `SymbolTable::Set`: binds the name in this table only, inserting or overwriting;
        enclosing tables never change, and no other name's binding does. */
    method Set(name: string, newValue: Value)
      requires Valid()
      modifies this
      ensures Valid() && Repr == old(Repr) && parent == old(parent)
      ensures symbols == old(symbols)[name := newValue]
      ensures Resolve(name) == Some(newValue)
      ensures forall n :: n != name ==> Resolve(n) == old(Resolve(n))
    {
      symbols := symbols[name := newValue];
    }

    /** `SymbolTable::Remove`: drops the local binding only, so an enclosing binding of the
        same name becomes visible again. */
    method Remove(name: string)
      requires Valid()
      modifies this
      ensures Valid() && Repr == old(Repr) && parent == old(parent)
      ensures symbols == old(symbols) - {name}
      ensures Resolve(name) == (if parent == null then None else parent.Resolve(name))
      ensures forall n :: n != name ==> Resolve(n) == old(Resolve(n))
    {
      symbols := symbols - {name};
    }
  }
}
