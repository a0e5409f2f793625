/** A name registry: a module-level dictionary from names to values that
    registration mutates and lookups read (the pattern shared by
    src/models/registry.py, src/features/registry.py and
    src/labels/registry.py). Python dictionaries keep insertion order, and
    re-registering a name replaces its value without moving it. */
module NameRegistry {
  import opened Wrappers

  class Registry<V> {
    /** Registered names in insertion order. */
    var names: seq<string>
    var table: map<string, V>

    /** Each name is listed once, and exactly the registered names are listed. */
    ghost predicate Valid()
      reads this
    {
      (forall i, j :: 0 <= i < j < |names| ==> names[i] != names[j]) &&
      (forall n :: n in table <==> n in names)
    }

    constructor ()
      ensures Valid() && names == [] && table == map[]
    {
      names := [];
      table := map[];
    }

    /** Registers `v` under `name` and returns `v` unchanged (the decorator). */
    method Register(name: string, v: V) returns (r: V)
      requires Valid()
      modifies this
      ensures Valid()
      ensures r == v
      ensures table == old(table)[name := v]
      ensures names == if name in old(table) then old(names) else old(names) + [name]
    {
      if name !in table {
        names := names + [name];
      }
      table := table[name := v];
      r := v;
    }

    /** Lookup: the registered value, or KeyError for an unknown name. */
    function Get(name: string): (r: Result<V>)
      reads this
      ensures r.Ok? <==> name in table
      ensures r.Ok? ==> r.value == table[name]
      ensures r.Err? ==> r.error == KeyError(name)
    {
      if name in table then Ok(table[name]) else Err(KeyError(name))
    }

    /** The registered names, each once, in registration order. */
    function List(): (r: seq<string>)
      reads this
      requires Valid()
      ensures r == names
      ensures forall n :: n in r <==> n in table
      ensures forall i, j :: 0 <= i < j < |r| ==> r[i] != r[j]
    {
      names
    }
  }

  /** After registering, a lookup returns the most recent value for the
      name, other names are unaffected, and the name is listed exactly once. */
  method RegisterThenGet<V>(reg: Registry<V>, name: string, v: V, other: string)
    returns (got: Result<V>, gotOther: Result<V>, listed: seq<string>)
    requires reg.Valid() && other != name
    modifies reg
    ensures reg.Valid()
    ensures got == Ok(v)
    ensures gotOther == old(reg.Get(other))
    ensures name in listed && |listed| == |old(reg.names)| + (if name in old(reg.table) then 0 else 1)
  {
    var _ := reg.Register(name, v);
    got := reg.Get(name);
    gotOther := reg.Get(other);
    listed := reg.List();
  }
}
