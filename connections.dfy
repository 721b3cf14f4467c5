/** The persistent variable store and the template context that exposes it
    (connections.py). The process-wide `global_context` singleton is modelled
    as one `PersistentStorage` object that every operation receives explicitly. */
module Connections {
  import opened OrderedDicts
  import opened Values

  /** A key/value table that lives for the whole run and that templates read and write. */
  class PersistentStorage {
    var storage: Dict<Value>

    constructor ()
      ensures storage == Empty()
    {
      storage := Empty();
    }

    /** Inserts or overwrites `key`; the last writer wins and the key is listed once. */
    method Set(key: string, value: Value) returns (r: string)
      modifies this
      ensures storage == Insert(old(storage), key, value)
      ensures key in storage.entries && storage.entries[key] == value
      ensures forall k :: k != key ==> (k in storage.entries <==> k in old(storage.entries))
      ensures forall k :: k != key && k in storage.entries ==> storage.entries[k] == old(storage.entries)[k]
      ensures multiset(storage.order)[key] == 1
      ensures r == ""
    {
      storage := Insert(storage, key, value);
      InsertListsKeyOnce(old(storage), key, value);
      r := "";
    }

    /** The stored value, or `default` (Python's None unless given) when the key is absent. */
    method Get(key: string, default: Value := NoneValue) returns (r: Value)
      ensures key in storage.entries ==> r == storage.entries[key]
      ensures key !in storage.entries ==> r == default
    {
      r := if key in storage.entries then storage.entries[key] else default;
    }

    /** Removes every entry. */
    method Clear() returns (r: string)
      modifies this
      ensures storage == Empty()
      ensures r == ""
    {
      storage := Empty();
      r := "";
    }

    /** A new list of the stored keys, each once, in insertion order. */
    method Keys() returns (r: seq<string>)
      ensures r == storage.order
      ensures NoDuplicates(r)
      ensures forall k :: k in r <==> k in storage.entries
      ensures |r| == |storage.entries|
    {
      r := storage.order;
      KeyCount(storage);
    }
  }

  // The four closures that `enhanced_macro_context` binds to the shared store.

  /** `get_var(key, default=None)` */
  method GetVar(store: PersistentStorage, key: string, default: Value := NoneValue) returns (r: Value)
    ensures key in store.storage.entries ==> r == store.storage.entries[key]
    ensures key !in store.storage.entries ==> r == default
  {
    r := store.Get(key, default);
  }

  /** `set_var(key, value)`: writes through to the store and returns the empty string. */
  method SetVar(store: PersistentStorage, key: string, value: Value) returns (r: string)
    modifies store
    ensures store.storage == Insert(old(store.storage), key, value)
    ensures r == ""
  {
    var ignored := store.Set(key, value);
    r := "";
  }

  /** `clear_vars()`: empties the store and returns the empty string. */
  method ClearVars(store: PersistentStorage) returns (r: string)
    modifies store
    ensures store.storage == Empty()
    ensures r == ""
  {
    var ignored := store.Clear();
    r := "";
  }

  /** `list_vars()` */
  method ListVars(store: PersistentStorage) returns (r: seq<string>)
    ensures r == store.storage.order
    ensures forall k :: k in r <==> k in store.storage.entries
    ensures |r| == |store.storage.entries|
  {
    r := store.Keys();
  }

  /** The names under which the store and its accessors are exposed, in insertion order. */
  const StoreBindingNames: seq<string> := ["set_var", "get_var", "clear_vars", "list_vars", "global_context"]

  /** The five bindings, in this order: each name to its accessor as defined by `binder`,
      and `global_context` to the store. */
  function StoreBindings(binder: Binder): Dict<Value>
  {
    DictRep(StoreBindingNames,
            map["set_var" := Callable(SetVarFn, binder), "get_var" := Callable(GetVarFn, binder),
                "clear_vars" := Callable(ClearVarsFn, binder), "list_vars" := Callable(ListVarsFn, binder),
                "global_context" := StoreObject])
  }

  /** A macro object; `context` is its `context` attribute when it has one. */
  datatype Macro = Macro(context: Option<Dict<Value>>)

  predicate MacroDefines(macro: Macro, k: string)
  {
    macro.context.Some? && k in macro.context.value.entries
  }

  /** `enhanced_macro_context(macro, ...)`: the store bindings, overlaid by the macro's
      own context, whose entries win on a name clash. */
  method EnhancedMacroContext(macro: Macro) returns (context: Dict<Value>)
    ensures forall k :: k in context.entries <==> k in StoreBindingNames || MacroDefines(macro, k)
    ensures forall k :: MacroDefines(macro, k) ==> context.entries[k] == macro.context.value.entries[k]
    ensures forall k :: k in StoreBindingNames && !MacroDefines(macro, k) ==>
              context.entries[k] == StoreBindings(ContextClosure).entries[k]
    ensures |StoreBindingNames| <= |context.order| && context.order[..|StoreBindingNames|] == StoreBindingNames
    ensures macro.context.None? ==> context == StoreBindings(ContextClosure)
    ensures macro.context.Some? ==>
              context.order == StoreBindingNames + NewKeys(macro.context.value.order, StoreBindings(ContextClosure).entries)
  {
    context := StoreBindings(ContextClosure);
    if macro.context.Some? {
      OverlayEntries(context, macro.context.value);
      OverlayOrder(context, macro.context.value);
      context := Overlay(context, macro.context.value);
    }
  }

  /** One call a template makes on the store. */
  datatype StoreCall = SetCall(key: string, value: Value) | ClearCall

  function Apply(d: Dict<Value>, call: StoreCall): Dict<Value>
  {
    match call
    case SetCall(k, v) => Insert(d, k, v)
    case ClearCall => Empty()
  }

  /** The store after a run of calls, applied first to last. */
  function Replay(d: Dict<Value>, calls: seq<StoreCall>): Dict<Value>
    decreases |calls|
  {
    if calls == [] then d else Replay(Apply(d, calls[0]), calls[1..])
  }

  /** What `get(key, default)` should read after `calls`, looking back from the last call:
      the value of the latest `set` of `key`, the default if a `clear` came later,
      and `before` if neither happened. */
  function LastWritten(calls: seq<StoreCall>, key: string, before: Value, default: Value): Value
    decreases |calls|
  {
    if calls == [] then before
    else match calls[|calls| - 1]
      case SetCall(k, v) => if k == key then v else LastWritten(calls[..|calls| - 1], key, before, default)
      case ClearCall => default
  }

  /** Last writer wins: after any run of `set` and `clear` calls, a read sees the latest
      write to its key since the latest clear, and the default when there is none. */
  lemma {:induction false} LastWriterWins(d: Dict<Value>, calls: seq<StoreCall>, key: string, default: Value)
    ensures Get(Replay(d, calls), key, default) == LastWritten(calls, key, Get(d, key, default), default)
    decreases |calls|
  {
    if calls != [] {
      var init, last := calls[..|calls| - 1], calls[|calls| - 1];
      assert calls == init + [last];
      ReplayAppend(d, init, last);
      LastWriterWins(d, init, key, default);
    }
  }

  lemma {:induction false} ReplayAppend(d: Dict<Value>, calls: seq<StoreCall>, call: StoreCall)
    ensures Replay(d, calls + [call]) == Apply(Replay(d, calls), call)
    decreases |calls|
  {
    if calls != [] {
      assert (calls + [call])[1..] == calls[1..] + [call];
      ReplayAppend(Apply(d, calls[0]), calls[1..], call);
    }
  }

  /** Whatever came before, a run that ends with `clear` leaves the store empty. */
  lemma ClearLeavesEmpty(d: Dict<Value>, calls: seq<StoreCall>)
    ensures Replay(d, calls + [ClearCall]) == Empty()
  {
    ReplayAppend(d, calls, ClearCall);
  }
}
