/** The `zenv` table of main.c (main.c:351-438): names and values kept in two
    parallel lists, searched front to back.  Evaluation never consults it. */
module Environment {
  import opened Basics
  import opened Values

  const Unbound := "Unbound symbol !!"

  /** Index of the first occurrence of `name` in `syms`. */
  function IndexOf(syms: seq<string>, name: string): (r: Option<nat>)
    ensures r.Some? ==> r.value < |syms| && syms[r.value] == name &&
                        forall k :: 0 <= k < r.value ==> syms[k] != name
    ensures r.None? <==> name !in syms
  {
    if syms == [] then None
    else if syms[0] == name then Some(0)
    else match IndexOf(syms[1..], name)
      case None => None
      case Some(i) => Some(i + 1)
  }

  /** What `zenv_retrieve` answers for `name` in the table `syms`/`vals`. */
  function Lookup(syms: seq<string>, vals: seq<Value>, name: string): Value
    requires |syms| == |vals|
  {
    match IndexOf(syms, name)
    case Some(i) => vals[i]
    case None => Error(Unbound)
  }

  /** The table read as a map: the first binding of a name is the one seen. */
  function Bindings(syms: seq<string>, vals: seq<Value>): (m: map<string, Value>)
    requires |syms| == |vals|
    ensures m.Keys == set k | 0 <= k < |syms| :: syms[k]
  {
    if syms == [] then map[]
    else Bindings(syms[1..], vals[1..])[syms[0] := vals[0]]
  }

  predicate Distinct(syms: seq<string>) {
    forall i, j :: 0 <= i < j < |syms| ==> syms[i] != syms[j]
  }

  /** Looking a name up in the table is looking it up in its map. */
  lemma {:induction false} LookupBindings(syms: seq<string>, vals: seq<Value>, name: string)
    requires |syms| == |vals|
    ensures name in Bindings(syms, vals) ==> Lookup(syms, vals, name) == Bindings(syms, vals)[name]
    ensures name !in Bindings(syms, vals) ==> Lookup(syms, vals, name) == Error(Unbound)
  {
    if syms != [] && syms[0] != name {
      LookupBindings(syms[1..], vals[1..], name);
    }
  }

  /** Replacing the value at the first slot of `name` rebinds `name` in the
      map and nothing else. */
  lemma {:induction false} ReplaceBindings(syms: seq<string>, vals: seq<Value>, name: string, i: nat, v: Value)
    requires |syms| == |vals| && IndexOf(syms, name) == Some(i)
    ensures Bindings(syms, vals[i := v]) == Bindings(syms, vals)[name := v]
  {
    if i > 0 {
      assert vals[i := v][1..] == vals[1..][i - 1 := v];
      ReplaceBindings(syms[1..], vals[1..], name, i - 1, v);
    } else {
      assert vals[i := v][1..] == vals[1..];
    }
  }

  /** Appending a name not yet bound binds it in the map and nothing else. */
  lemma {:induction false} AppendBindings(syms: seq<string>, vals: seq<Value>, name: string, v: Value)
    requires |syms| == |vals| && name !in syms
    ensures Bindings(syms + [name], vals + [v]) == Bindings(syms, vals)[name := v]
  {
    if syms == [] {
      assert Bindings([name], [v]) == Bindings([], [])[name := v];
    } else {
      assert (syms + [name])[1..] == syms[1..] + [name];
      assert (vals + [v])[1..] == vals[1..] + [v];
      AppendBindings(syms[1..], vals[1..], name, v);
    }
  }

  /** A `zenv`: `count` is the common length of the two lists. */
  class Env {
    var syms: seq<string>
    var vals: seq<Value>

    predicate Valid()
      reads this
    {
      |syms| == |vals| && Distinct(syms)
    }

    /** `zenv_create` (main.c:367-375): the empty table. */
    constructor ()
      ensures Valid() && syms == [] && vals == []
    {
      syms := [];
      vals := [];
    }

    /** `zenv_retrieve` (main.c:394-409): a copy of the value stored under the
        first slot named `name`, or the unbound-symbol error.  The table is
        not changed. */
    method Retrieve(name: string) returns (r: Value)
      requires |syms| == |vals|
      ensures r == Lookup(syms, vals, name)
    {
      var i := 0;
      while i < |syms|
        invariant 0 <= i <= |syms|
        invariant forall k :: 0 <= k < i ==> syms[k] != name
      {
        if syms[i] == name {
          assert IndexOf(syms, name) == Some(i);
          return Copy(vals[i]);
        }
        i := i + 1;
      }
      return Error(Unbound);
    }

    /** `zenv_store` (main.c:411-438): the value under an existing name is
        replaced in its slot; a new name is appended with its value.

        main.c:435 writes the new name's buffer into `val_list`, over the
        value just copied, and leaves the new `sym_list` slot unset; the
        method stores the name and the value where main.c:433 says they go. */
    method Store(name: string, v: Value)
      requires Valid()
      modifies this
      ensures Valid()
      ensures name in old(syms) ==>
                syms == old(syms) && vals == old(vals)[IndexOf(old(syms), name).value := v]
      ensures name !in old(syms) ==>
                syms == old(syms) + [name] && vals == old(vals) + [v]
      ensures Bindings(syms, vals) == old(Bindings(syms, vals))[name := v]
    {
      var i := 0;
      while i < |syms|
        invariant 0 <= i <= |syms|
        invariant forall k :: 0 <= k < i ==> syms[k] != name
      {
        if syms[i] == name {
          assert IndexOf(syms, name) == Some(i);
          ReplaceBindings(syms, vals, name, i, v);
          vals := vals[i := Copy(v)];
          return;
        }
        i := i + 1;
      }
      AppendBindings(syms, vals, name, v);
      syms := syms + [name];
      vals := vals + [Copy(v)];
    }
  }

  /** After storing `v` under `name`, retrieving `name` gives `v` back, and
      every other name keeps its answer. */
  lemma StoreRetrieve(syms: seq<string>, vals: seq<Value>, syms': seq<string>, vals': seq<Value>,
                      name: string, v: Value, other: string)
    requires |syms| == |vals| && |syms'| == |vals'|
    requires Bindings(syms', vals') == Bindings(syms, vals)[name := v]
    ensures Lookup(syms', vals', name) == v
    ensures other != name ==> Lookup(syms', vals', other) == Lookup(syms, vals, other)
  {
    LookupBindings(syms', vals', name);
    LookupBindings(syms', vals', other);
    LookupBindings(syms, vals, other);
  }
}
