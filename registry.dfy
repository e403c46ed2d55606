/**
 * The pusher registry: platform names mapped to pusher classes, filled by the
 * `register` decorator and by the built-in Bilibili registration at import time.
 */
module Registry {
  import opened Base
  import opened Dicts

  /** A pusher class, known by its name; `get_pusher` instantiates it with keyword arguments. */
  datatype PusherClass = PusherClass(name: string)

  /** What `get_pusher` returns: an instance of the registered class built from the arguments. */
  datatype Instance = Instance(cls: PusherClass, kwargs: Dict<string>)

  /** Why `get_pusher` raised: the unknown name and the platforms on offer. */
  datatype Unknown = Unknown(name: string, available: seq<string>)

  const BuiltinName: string := "bilibili"
  const BuiltinClass: PusherClass := PusherClass("BilibiliPusher")

  class Registry {
    var table: Dict<PusherClass>

    /** The module-level `_REGISTRY` right after import: the built-in registration has run. */
    constructor (importOk: bool)
      ensures table == (if importOk then [(BuiltinName, BuiltinClass)] else [])
    {
      table := [];
      new;
      RegisterBuiltin(importOk);
    }

    /** `register(name)(cls)`: stores the class under the name, replacing an earlier one, and hands the class back. */
    method Register(name: string, cls: PusherClass) returns (r: PusherClass)
      modifies this
      ensures r == cls
      ensures table == Put(old(table), name, cls)
    {
      table := Put(table, name, cls);
      return cls;
    }

    /** `_register_builtin`: registers the Bilibili pusher unless importing it fails. */
    method RegisterBuiltin(importOk: bool)
      modifies this
      ensures table == (if importOk then Put(old(table), BuiltinName, BuiltinClass) else old(table))
    {
      if importOk {
        table := Put(table, BuiltinName, BuiltinClass);
      }
    }

    /** `get_pusher`: an unknown name raises with the registered names; a known one is instantiated. */
    method GetPusher(name: string, kwargs: Dict<string>) returns (r: Result<Instance, Unknown>)
      ensures r == Resolve(table, name, kwargs)
    {
      match Lookup(table, name) {
        case Some(cls) => r := Ok(Instance(cls, kwargs));
        case None => r := Err(Unknown(name, Keys(table)));
      }
    }

    /** `list_platforms`: the registered names in registration order. */
    method ListPlatforms() returns (names: seq<string>)
      ensures names == Keys(table)
    {
      names := Keys(table);
    }
  }

  /** What `get_pusher` yields from a registry table. */
  function Resolve(table: Dict<PusherClass>, name: string, kwargs: Dict<string>): (r: Result<Instance, Unknown>)
    ensures r.Ok? <==> name in Keys(table)
    ensures r.Ok? ==> Lookup(table, name) == Some(r.value.cls) && r.value.kwargs == kwargs
    ensures r.Err? ==> r.error == Unknown(name, Keys(table))
  {
    LookupPresent(table, name);
    match Lookup(table, name)
    case Some(cls) => Ok(Instance(cls, kwargs))
    case None => Err(Unknown(name, Keys(table)))
  }

  /** A registered name yields the class registered last under it; every other name resolves as before. */
  lemma RegisterThenGet(table: Dict<PusherClass>, name: string, cls: PusherClass, other: string, kwargs: Dict<string>)
    ensures Resolve(Put(table, name, cls), name, kwargs) == Ok(Instance(cls, kwargs))
    ensures other != name ==>
      (Resolve(Put(table, name, cls), other, kwargs).Ok? <==> Resolve(table, other, kwargs).Ok?)
      && (Resolve(table, other, kwargs).Ok? ==> Resolve(Put(table, name, cls), other, kwargs) == Resolve(table, other, kwargs))
  {
    PutLookup(table, name, cls, name);
    PutLookup(table, name, cls, other);
    LookupPresent(Put(table, name, cls), other);
    LookupPresent(table, other);
  }

  /** Registering adds the name at the end of the platform list, or leaves the list as it was when the name was known. */
  lemma RegisterLists(table: Dict<PusherClass>, name: string, cls: PusherClass)
    ensures Keys(Put(table, name, cls)) == if name in Keys(table) then Keys(table) else Keys(table) + [name]
  {
    PutKeys(table, name, cls);
  }
}
