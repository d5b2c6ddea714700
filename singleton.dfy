/**
 * The singleton registry of myning/objects/singleton.py.
 *
 * One dictionary, shared by every class whose metaclass is `Singleton`, maps a
 * class to its registered instance. Calling the class returns that instance or
 * fails when there is none; `_instance` reads and writes the entry of one class;
 * `reset` replaces the dictionary by an empty one.
 */
module Singleton {
  import opened Wrappers

  /** A class using the `Singleton` metaclass, named by its `__name__`. */
  type TypeId = string

  /** The `RuntimeError` raised by calling a class before its `initialize()`. */
  datatype RegistryError = NotInitialized(cls: TypeId)

  /** `cls()`: the registered instance; the call's arguments are ignored. */
  function CallOf(instances: map<TypeId, object>, cls: TypeId): (r: Result<object, RegistryError>)
    ensures r.Ok? <==> cls in instances
  {
    if cls in instances then Ok(instances[cls]) else Err(NotInitialized(cls))
  }

  /** The `_instance` getter: `_instances.get(cls)`. */
  function InstanceOf(instances: map<TypeId, object>, cls: TypeId): (r: Option<object>)
    ensures r.Some? <==> cls in instances
  {
    if cls in instances then Some(instances[cls]) else None
  }

  /** The getter and the call agree: the call fails exactly when the getter gives None. */
  lemma CallMatchesInstance(instances: map<TypeId, object>, cls: TypeId)
    ensures CallOf(instances, cls) == (match InstanceOf(instances, cls)
                                         case Some(o) => Ok(o)
                                         case None => Err(NotInitialized(cls)))
  {
  }

  /** Once `_instance` is assigned, every call returns that object. */
  lemma CallAfterAssign(instances: map<TypeId, object>, cls: TypeId, o: object)
    ensures CallOf(instances[cls := o], cls) == Ok(o)
  {
  }

  /** Assigning one class's instance does not affect any other class. */
  lemma AssignIsolated(instances: map<TypeId, object>, cls: TypeId, other: TypeId, o: object)
    requires other != cls
    ensures CallOf(instances[cls := o], other) == CallOf(instances, other)
    ensures InstanceOf(instances[cls := o], other) == InstanceOf(instances, other)
  {
  }

  /** A second assignment replaces the first: there is no guard against re-registration. */
  lemma AssignReplaces(instances: map<TypeId, object>, cls: TypeId, o1: object, o2: object)
    ensures CallOf(instances[cls := o1][cls := o2], cls) == Ok(o2)
  {
  }

  /** After `reset`, calling any class fails again. */
  lemma CallAfterReset(cls: TypeId)
    ensures CallOf(map[], cls) == Err(NotInitialized(cls))
  {
  }

  class Registry {
    /** `Singleton._instances`. */
    var instances: map<TypeId, object>

    constructor ()
      ensures instances == map[]
    {
      instances := map[];
    }

    /** `Singleton.__call__`. */
    method Call(cls: TypeId) returns (r: Result<object, RegistryError>)
      ensures r == CallOf(instances, cls)
      ensures r.Ok? ==> r.value == instances[cls]
    {
      if cls !in instances {
        return Err(NotInitialized(cls));
      }
      r := Ok(instances[cls]);
    }

    /** The `_instance` property. */
    method Instance(cls: TypeId) returns (r: Option<object>)
      ensures r == InstanceOf(instances, cls)
    {
      r := if cls in instances then Some(instances[cls]) else None;
    }

    /** The `_instance` setter. */
    method SetInstance(cls: TypeId, o: object)
      modifies this
      ensures instances == old(instances)[cls := o]
    {
      instances := instances[cls := o];
    }

    /** `Singleton.reset()`. */
    method Reset()
      modifies this
      ensures instances == map[]
    {
      instances := map[];
    }
  }
}
