/**
 * The Painless compiler's table of functions callable directly on a generated script
 * class. Functions are keyed by name and arity, written `name/arity`, so overloads
 * that differ in their number of parameters live side by side.
 */
module FunctionTables {
  import opened Wrappers
  import opened JavaText

  /** A Painless type; the source stores `Class<?>` objects and only passes them along. */
  type TypeName = string

  /**
   * A function of the script class. The source's `MethodType` and ASM method
   * descriptor, derived from the return and parameter types, are not modelled.
   */
  datatype LocalFunction = LocalFunction(
    functionName: string,
    returnType: TypeName,
    typeParameters: seq<TypeName>,
    isInternal: bool,
    isStatic: bool)
  {
    function Arity(): nat {
      |typeParameters|
    }
  }

  /** The lookup key of a fn: its name, a '/', then its arity in decimal. */
  function BuildLocalFunctionKey(functionName: string, functionArity: int): (key: string)
    ensures |key| > |functionName| + 1
    ensures key[..|functionName|] == functionName && key[|functionName|] == '/'
    ensures '/' !in key[|functionName| + 1..]
    ensures IsIntString(key[|functionName| + 1..])
    ensures ParseInt(key[|functionName| + 1..]) == functionArity
  {
    var key := functionName + "/" + IntToString(functionArity);
    ParseIntToString(functionArity);
    IntToStringHasNoSlash(functionArity);
    assert key[|functionName| + 1..] == IntToString(functionArity);
    key
  }

  /** Two keys are equal only when both the names and the arities are. */
  lemma KeyInjective(name1: string, arity1: int, name2: string, arity2: int)
    requires BuildLocalFunctionKey(name1, arity1) == BuildLocalFunctionKey(name2, arity2)
    ensures name1 == name2 && arity1 == arity2
  {
    IntToStringHasNoSlash(arity1);
    IntToStringHasNoSlash(arity2);
    SplitAtLastSeparator(name1, IntToString(arity1), name2, IntToString(arity2), '/');
    IntToStringInjective(arity1, arity2);
  }

  /** The key `addFunction` files a function under. */
  function KeyOf(fn: LocalFunction): string {
    BuildLocalFunctionKey(fn.functionName, fn.Arity())
  }

  /** The table after `localFunctions.put(KeyOf(fn), fn)`. */
  function Put(table: map<string, LocalFunction>, fn: LocalFunction): (r: map<string, LocalFunction>)
    ensures r.Keys == table.Keys + {KeyOf(fn)}
  {
    table[KeyOf(fn) := fn]
  }

  /** `getFunction(name, arity)` over a table: the entry under that key, or null. */
  function Lookup(table: map<string, LocalFunction>, functionName: string, functionArity: int): Option<LocalFunction> {
    var key := BuildLocalFunctionKey(functionName, functionArity);
    if key in table then Some(table[key]) else None
  }

  /** Looking a function up by its own name and arity right after adding it finds it. */
  lemma LookupAfterPut(table: map<string, LocalFunction>, fn: LocalFunction)
    ensures Lookup(Put(table, fn), fn.functionName, fn.Arity()) == Some(fn)
  {
  }

  /**
   * Adding a function leaves every other (name, arity) as it was: the key it replaces,
   * if any, belongs to a function of the same name and arity.
   */
  lemma LookupOtherAfterPut(table: map<string, LocalFunction>, fn: LocalFunction, functionName: string, functionArity: int)
    requires functionName != fn.functionName || functionArity != fn.Arity()
    ensures Lookup(Put(table, fn), functionName, functionArity) == Lookup(table, functionName, functionArity)
  {
    if BuildLocalFunctionKey(functionName, functionArity) == KeyOf(fn) {
      KeyInjective(functionName, functionArity, fn.functionName, fn.Arity());
    }
  }

  /** Entries of the table are always filed under their own key. */
  ghost predicate WellKeyed(table: map<string, LocalFunction>) {
    forall key :: key in table ==> key == KeyOf(table[key])
  }

  lemma PutKeepsWellKeyed(table: map<string, LocalFunction>, fn: LocalFunction)
    requires WellKeyed(table)
    ensures WellKeyed(Put(table, fn))
  {
  }

  /** The table after adding `fns`, in order. */
  function PutAll(table: map<string, LocalFunction>, fns: seq<LocalFunction>): map<string, LocalFunction>
    decreases |fns|
  {
    if fns == [] then table else PutAll(Put(table, fns[0]), fns[1..])
  }

  /**
   * Adding functions none of which has this name and arity leaves its lookup as it was;
   * on a new table, a (name, arity) never added looks up to null.
   */
  lemma {:induction false} LookupNeverAdded(table: map<string, LocalFunction>, fns: seq<LocalFunction>,
                                            functionName: string, functionArity: int)
    requires forall k :: 0 <= k < |fns| ==> fns[k].functionName != functionName || fns[k].Arity() != functionArity
    ensures Lookup(PutAll(table, fns), functionName, functionArity) == Lookup(table, functionName, functionArity)
    ensures Lookup(PutAll(map[], fns), functionName, functionArity) == None
    decreases |fns|
  {
    if fns != [] {
      LookupOtherAfterPut(table, fns[0], functionName, functionArity);
      LookupOtherAfterPut(map[], fns[0], functionName, functionArity);
      LookupNeverAdded(Put(table, fns[0]), fns[1..], functionName, functionArity);
      LookupNeverAdded(Put(map[], fns[0]), fns[1..], functionName, functionArity);
    }
  }

  class FunctionTable {
    var localFunctions: map<string, LocalFunction>

    ghost predicate Valid()
      reads this
    {
      WellKeyed(localFunctions)
    }

    constructor ()
      ensures Valid() && localFunctions == map[]
    {
      localFunctions := map[];
    }

    /** `addFunction(name, returnType, typeParameters, isInternal, isStatic)`: builds, files and returns the fn. */
    method AddFunction(functionName: string, returnType: TypeName, typeParameters: seq<TypeName>, isInternal: bool, isStatic: bool)
      returns (fn: LocalFunction)
      requires Valid()
      modifies this
      ensures Valid()
      ensures fn == LocalFunction(functionName, returnType, typeParameters, isInternal, isStatic)
      ensures localFunctions == Put(old(localFunctions), fn)
      ensures GetFunction(functionName, |typeParameters|) == Some(fn)
    {
      var functionKey := BuildLocalFunctionKey(functionName, |typeParameters|);
      fn := LocalFunction(functionName, returnType, typeParameters, isInternal, isStatic);
      localFunctions := localFunctions[functionKey := fn];
      LookupAfterPut(old(localFunctions), fn);
    }

    /** `addFunction(LocalFunction)`: files an existing function under its key and returns it. */
    method AddLocalFunction(fn: LocalFunction) returns (added: LocalFunction)
      requires Valid()
      modifies this
      ensures Valid()
      ensures added == fn
      ensures localFunctions == Put(old(localFunctions), fn)
      ensures GetFunction(fn.functionName, fn.Arity()) == Some(fn)
    {
      var functionKey := BuildLocalFunctionKey(fn.functionName, |fn.typeParameters|);
      localFunctions := localFunctions[functionKey := fn];
      LookupAfterPut(old(localFunctions), fn);
      added := fn;
    }

    /** `getFunction(name, arity)`: the function filed under that name and arity, or null. */
    function GetFunction(functionName: string, functionArity: int): (r: Option<LocalFunction>)
      reads this
      requires Valid()
      ensures r == GetFunctionByKey(BuildLocalFunctionKey(functionName, functionArity))
      ensures r == Lookup(localFunctions, functionName, functionArity)
      ensures r.Some? ==> r.value.functionName == functionName && r.value.Arity() == functionArity
    {
      var key := BuildLocalFunctionKey(functionName, functionArity);
      if key in localFunctions then
        KeyInjective(functionName, functionArity, localFunctions[key].functionName, localFunctions[key].Arity());
        Some(localFunctions[key])
      else None
    }

    /** `getFunction(key)`: the function filed under a prebuilt key, or null. */
    function GetFunctionByKey(functionKey: string): (r: Option<LocalFunction>)
      reads this
      requires Valid()
      ensures r.Some? ==> KeyOf(r.value) == functionKey
      ensures r.None? <==> functionKey !in localFunctions
      ensures r.Some? ==> r.value == localFunctions[functionKey]
    {
      if functionKey in localFunctions then Some(localFunctions[functionKey]) else None
    }
  }
}
